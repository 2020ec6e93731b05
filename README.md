# Studienfortschritt-Dashboard — verified model

This project models the progress engine of a small study-progress dashboard
(`main.py`). A student (`Student`) is enrolled in a degree programme
(`Studiengang`). The programme is a list of numbered semesters (`Semester`). Each
semester holds modules (`Modul`), and a module may carry an exam result
(`Pruefungsleistung`: an optional grade and a status) and a list of appointments
(`Termin`). A storage object (`SpeicherManager`) looks a student up by their
matriculation number. A controller (`DashboardController`) loads one student and
derives the dashboard figures from the loaded programme:

- the current semester;
- the ECTS credits earned;
- the grade average and the list of graded modules;
- the titles of the modules in the current semester;
- the upcoming appointments, sorted by date.

The project has four files:

- `records.dfy` (module `Records`): the entities. The three mutable ones
  (`Modul`, `Semester`, `Studiengang`) are classes whose builders append to a
  `seq` field. Each class has a value view (`ModulV`, `SemesterV`,
  `StudiengangV`) that the figures are computed on. Dates are day ordinals
  (`Datum`, proleptic Gregorian calendar).
- `progress.dfy` (module `Progress`): one specification function per dashboard
  figure, defined over the value view. The lemmas state what each figure means:
  - credits are summed over passed modules, each module counted once;
  - the average is absent exactly when no module is graded, and otherwise is
    the mean rounded to two decimals;
  - the current semester is 1 when all semesters are empty, and otherwise the
    largest number of a non-empty semester;
  - the upcoming appointments are exactly those dated today or later, sorted,
    a permutation of the walk's entries, and stable on equal dates.
- `dashboard.dfy` (module `Dashboard`): the storage object with its example
  records, and the controller. Where main.py loops (credits, grades, the
  semester search, the appointments), the controller loops too. The credit,
  grade and appointment loops read a value snapshot of the loaded programme
  (`Snapshot()`). The semester search walks the `Semester` objects themselves
  and returns one of them. Every controller figure is proved equal to its
  specification function applied to the snapshot.
- `beispiel.dfy` (module `Beispiel`): the dashboard figures of the example,
  proved: semester 3 of a target of 6, 15 of 180 ECTS, average 2.57, four
  enrolled modules, three appointments in date order. An unknown number is not
  found.

Grades are integers in hundredths (2.7 is `270`). The defaults of main.py are
kept as default parameter values:
- an exam result has no grade and the status "offen";
- a module has no exam result and no appointments;
- a semester has no modules and a programme has no semesters;
- the progress targets are 6 semesters and 180 ECTS.

## Model

| member | source | states |
|---|---|---|
| Records.Datum | main.py:11 | a date as its day ordinal, 1 January of year 1 being day 1; `MonatsWechsel`, `JahresWechsel` and `DatumOrdnung` prove that it numbers days consecutively and orders like dates |
| Records.MonatsWechsel | main.py:8-11 | the day ordinal of the first of a month is one more than that of the last day of the month before |
| Records.JahresWechsel | main.py:8-11 | 1 January directly follows 31 December of the year before, leap years included |
| Records.DatumOrdnung | main.py:8-11 | for valid dates, one ordinal is smaller than another iff its date is earlier (year, then month, then day), so comparisons and sorting on ordinals behave as they do on Python dates |
| Records.Modul.constructor | main.py:18-23 | a new module holds the given title, credits, optional exam result and appointments |
| Records.Modul.AddTermin | main.py:25-26 | the appointment list grows by exactly the given appointment at its end; nothing else changes |
| Records.Semester.constructor | main.py:28-31 | a new semester holds the given number and module list |
| Records.Semester.AddModul | main.py:33-34 | the module list grows by exactly the given module at its end |
| Records.Studiengang.constructor | main.py:36-39 | a new programme holds the given name and semester list |
| Records.Studiengang.AddSemester | main.py:41-42 | the semester list grows by exactly the given semester at its end |
| Dashboard.SpeicherManager.constructor | main.py:53-57 | the storage holds exactly the given records, keyed by matriculation number |
| Dashboard.SpeicherManager.LoadStudentByMatrikel | main.py:55-57 | a student is returned iff the number is a key of the records, and then it is the record stored under that number; when every record is filed under its own number (as `TestData`'s one record is), that record's own number is the one asked for |
| Dashboard.SpeicherManager.TestData | main.py:59-81 | the records hold exactly one key, "IU14102835", for "Julian Hinze"; the programme's view is the example programme (six semesters, four modules in semester 3) |
| Dashboard.SpeicherManager.SechsSemester | main.py:61-63 | the programme "Angewandte KI B.Sc." gets six fresh, empty semesters numbered 1 to 6 in order |
| Dashboard.SpeicherManager.BeispielModule | main.py:66-76 | the four example modules with their credits, grades, statuses and appointments in the order they were added |
| Dashboard.BeispielStudiengang | main.py:61-78 | the example programme as a value: six semesters numbered 1 to 6, of which only semester 3 holds modules (the four of main.py:66-76); `TestData` proves it is the view of the built programme |
| Dashboard.DashboardController.constructor | main.py:86-88 | the controller keeps the storage and starts with no student loaded |
| Dashboard.DashboardController.Load | main.py:90-92 | the loaded student is the lookup's result; the answer is true iff the number is in the records |
| Dashboard.DashboardController.Sg | main.py:139-141 | the loaded student's programme; its precondition `student.Some?` stands for the assert at main.py:140 |
| Dashboard.DashboardController.ErmittleAktuellesSemester | main.py:143-145 | 1 when no semester of the loaded programme holds a module; otherwise the number of a semester that holds one, and no such semester has a larger number |
| Dashboard.DashboardController.SemesterProgress | main.py:94-96 | returns the current semester of the loaded programme and the target unchanged; the target defaults to 6 |
| Dashboard.DashboardController.EctsProgress | main.py:98-104 | the loop's sum equals the credits of the passed modules over all semesters; the target is returned unchanged and defaults to 180 |
| Dashboard.DashboardController.CollectNoten | main.py:107-111 | the loop collects exactly the grades present, in semester and module order |
| Dashboard.DashboardController.Notendurchschnitt | main.py:106-114 | the result is absent iff no module of the programme has a grade, and otherwise is the rounded mean of the grades |
| Dashboard.DashboardController.Notenliste | main.py:116-122 | the loop yields (title, grade) for exactly the graded modules, in order |
| Dashboard.DashboardController.AktuellesSemesterObjekt | main.py:147-152 | the search loop returns null iff no semester carries the current number, and otherwise the earliest semester object that does |
| Dashboard.DashboardController.AktuellBelegteModule | main.py:124-126 | the titles of the located current semester's modules, in order, or empty when it is not found |
| Dashboard.DashboardController.KommendeTermine | main.py:128-136 | the result is the date-sorted list of upcoming entries; it is sorted and every entry is dated today or later |
| Dashboard.DashboardController.SammleTermine | main.py:129-135 | the nested loops collect "<appointment> (<module>)" entries dated today or later, in walk order |
| Progress.Flatten | main.py:100-101 | the modules of all semesters, semester by semester, as every controller walk visits them; its meaning is proved by `FlattenAppend` and `FlattenMember` |
| Progress.IsBestanden | main.py:102 | a module earns credits iff it has an exam result whose status is "bestanden" |
| Progress.FlattenAppend | main.py:100-101 | walking two semester lists one after the other walks their modules one after the other |
| Progress.FlattenMember | main.py:100-101 | a module is walked iff some semester holds it |
| Progress.Earned | main.py:98-104 | the credits of the passed modules of a module list; defined as a sum, with its meaning proved by `EarnedAppend`, `EarnedCountsEachModuleOnce` and `EarnedWithoutPassed` |
| Progress.EarnedAppend | main.py:98-104 | the credit sum is additive over concatenated module lists |
| Progress.EarnedCountsEachModuleOnce | main.py:98-104 | each module contributes its credits exactly once, and only if it is passed |
| Progress.EarnedWithoutPassed | main.py:102 | with no passed module the sum is 0 (open and failed modules earn nothing) |
| Progress.IsBenotet | main.py:110 | a module's grade is collected iff it has an exam result carrying a grade, whatever its status |
| Progress.Noten | main.py:107-111 | the grades collected for the average, in walk order; the list is no longer than the module list, and its meaning is proved by `NotenEmptyIffUngraded` and `NotenlisteMatchesNoten` |
| Progress.Notenliste | main.py:116-122 | the (title, grade) pairs in walk order; the list is no longer than the module list, and its meaning is proved by `NotenlisteMember` |
| Progress.NotenlisteMatchesNoten | main.py:106-122 | the grade list and the average's grades have the same length and the same grades in the same order |
| Progress.NotenEmptyIffUngraded | main.py:110-113 | no grade is collected iff no module has a grade, whatever its status |
| Progress.NotenlisteMember | main.py:116-122 | a pair is listed iff some module with that title carries that grade |
| Progress.NotenlisteAppend | main.py:116-122 | grade lists are additive over concatenated module lists |
| Progress.RoundedMean | main.py:114 | the result is within half a hundredth of the exact mean, and a tie goes to the even value |
| Progress.Notendurchschnitt | main.py:106-114 | absent iff no grade was collected; otherwise within half a hundredth of the mean of the collected grades |
| Progress.NotendurchschnittSpec | main.py:106-114 | the average is absent iff no module is graded; otherwise it lies within half a hundredth of the mean of all grades |
| Progress.Nummern | main.py:144 | the numbers of the non-empty semesters in order; the list is no longer than the semester list, and its meaning is proved by `NummernMember` |
| Progress.NummernMember | main.py:144 | a number is collected iff some non-empty semester carries it |
| Progress.MaxOf | main.py:145 | the result is an element of the list and no element exceeds it |
| Progress.AktuellesSemester | main.py:143-145 | 1 when no number was collected; otherwise a collected number that no collected number exceeds |
| Progress.AktuellesSemesterSpec | main.py:143-145 | 1 when every semester is empty; otherwise a non-empty semester's number that is at least the number of every non-empty semester |
| Progress.FindSemester | main.py:147-152 | finds the earliest semester with the number, or none iff no semester has it |
| Progress.FindSemesterAt | main.py:149-151 | the search stops at the first semester carrying the number |
| Progress.Titel | main.py:126 | one title per module, in order |
| Progress.AktuellBelegteModule | main.py:124-126 | empty when no semester carries the current number; otherwise one title per module of the first such semester, in order |
| Progress.AktuellesSemesterGefunden | main.py:143-152 | when some semester is non-empty, the current semester is always located, and with distinct numbers the enrolled titles are that semester's module titles |
| Progress.AktuellBelegteModuleLeer | main.py:124-126 | when every semester is empty, no module is enrolled |
| Progress.DoppelteNummerVerdecktModule | main.py:147-152 | an earlier empty semester with the current number hides a later non-empty one's modules |
| Progress.Label | main.py:135 | the text of an entry; its shape is proved by `LabelAufbau` |
| Progress.LabelAufbau | main.py:135 | a label is the appointment title, then " (", the module title and ")" |
| Progress.Anstehend | main.py:131-135 | the entries of the walk in walk order; which entries it holds is proved by `AnstehendMember` |
| Progress.TermineAb | main.py:133-135 | the entries for one module's appointments dated today or later, in stored order; its meaning is proved by `TermineAbMember` |
| Progress.TermineAbMember | main.py:133-135 | an entry is produced from a module's appointments iff it labels one dated today or later |
| Progress.AnstehendMember | main.py:131-135 | an entry is collected iff it labels an appointment, dated today or later, of a walked module |
| Progress.InsertByDate | main.py:136 | inserting into a date-sorted list keeps it sorted and adds exactly that entry |
| Progress.SortByDate | main.py:136 | the result is sorted by date and a permutation of the input |
| Progress.SortByDateSorted | main.py:136 | an already sorted list is returned unchanged |
| Progress.SortByDateIdempotent | main.py:136 | sorting twice is sorting once |
| Progress.InsertByDateStable | main.py:136 | insertion keeps the entries of each date in their order, the new one first |
| Progress.SortByDateStable | main.py:136 | the sort is stable: the entries of any one date keep their order |
| Progress.KommendeTermine | main.py:128-136 | the upcoming entries sorted by date: sorted, and a permutation of the walk's entries |
| Progress.KommendeTermineSpec | main.py:128-136 | the upcoming list is sorted, is a permutation of the walk's entries, is stable on equal dates, holds only entries dated today or later, and holds every appointment dated today or later |
| Beispiel.BeispielSemester | main.py:61-78 | the example's current semester is 3 |
| Beispiel.BeispielEcts | main.py:66-78 | the example student has earned 15 ECTS |
| Beispiel.BeispielNoten | main.py:66-78 | the example's grades are 2.0, 3.0 and 2.7 in order, with titles, and their average is 2.57 |
| Beispiel.BeispielBelegt | main.py:66-78 | the enrolled titles are the four modules of semester 3 in order |
| Beispiel.BeispielLabel | main.py:135 | the example's first entry reads "Klausur (Computer Vision)" |
| Beispiel.BeispielTermine | main.py:66-78 | from 1 January 2025 the upcoming appointments are 1 July, 15 July and 1 August 2025, in that order |
| Beispiel.BeispielLaden | main.py:177-181 | with the example records, "UNKNOWN" is not found and "IU14102835" loads Julian Hinze; the progress figures are shown against the default targets 6 and 180 |

## Left out

- The command-line front end (`render_dashboard`, `print` and `input`, main.py:154-185) is not modelled. Only its load step is kept, in `Beispiel.BeispielLaden`.
- `date.today()` is I/O. It becomes the `today` parameter of `KommendeTermine`.
- Dates are day ordinals computed by `Records.Datum` (proleptic Gregorian). `Records.DatumOrdnung` shows they order like dates. `strftime` formatting is not modelled.
- Grades are Python floats. The model keeps them as integers in hundredths. The average is the exact mean rounded to hundredths, half to even (Python's `round`). Binary floating-point artefacts of `sum`/`len` and of `round` are not modelled.
- Exam status is a free string in the source. The model uses the three values the source names (`Offen`, `Bestanden`, `NichtBestanden`), so other strings cannot be represented. In the source, any string other than "bestanden" earns no credits, as `Offen` and `NichtBestanden` do here.
- The list field `module` of `Semester` is named `modulListe`, because `module` is a Dafny keyword.
- `SpeicherManager.load_student_by_matrikel` rebuilds the example records on every call. The model builds them once (`TestData`) and keeps them as the storage's `data` map. Two lookups therefore return the same object, whereas the source returns fresh copies.
- `_sg`'s `assert self.student is not None` becomes the precondition `student.Some?` of every controller figure.
- Dashboard.DashboardController figure methods: the credit, grade and appointment loops read a value snapshot of the programme (`Snapshot()`), while the semester search in `AktuellesSemesterObjekt` walks the `Semester` objects and returns one. That is the same state, since the loops change nothing, but the model does not observe mutation during the walk.
- Beispiel.BeispielTermine: the expected entries are stated as `Label(...)` terms. `LabelAufbau` gives the shape of every label, and `BeispielLabel` spells out the first one.
- Beispiel.BeispielLaden does not call every figure method on the heap. The figures are proved on the example's value (`BeispielStudiengang`), `TestData` proves that value is the loaded programme's view, and each controller method is proved equal to its figure function.
- `SpeicherManager.TestData` is split into `SechsSemester` and `BeispielModule` for the proof. `SemesterProgress` and `EctsProgress` are called on the loaded example in `BeispielLaden`, and their contracts are used there only for the targets, because re-reading the programme after several heap steps is beyond the proof budget. `extend` on semester 3 is modelled as a concatenation of the four modules.
- The planned MySQL storage (main.py:54) is not part of this model.
