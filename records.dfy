/** The record tree of the student dashboard: appointments and exam results
    are values, modules, semesters and programmes are objects whose lists the
    builders extend in place, and a student owns exactly one programme.

    Dates are day ordinals (day 1 is 1 January of year 1, as in the proleptic
    Gregorian calendar); grades are hundredths (2.7 is 270). */
module Records {

  datatype Option<+T> = None | Some(value: T)

  /** The three exam states "offen", "bestanden" and "nicht bestanden". */
  datatype Status = Offen | Bestanden | NichtBestanden

  /** An appointment of a module: a title and a date. */
  datatype Termin = Termin(titel: string, datum: int)

  /** An exam result: an optional grade (None = not yet graded) and a status. */
  datatype Pruefungsleistung = Pruefungsleistung(note: Option<int> := None, status: Status := Offen)

  predicate Schaltjahr(y: int)
  {
    y % 4 == 0 && (y % 100 != 0 || y % 400 == 0)
  }

  /** Days before month m in a common year. */
  function TageVorMonat(m: int): int
    requires 1 <= m <= 12
  {
    [0, 31, 59, 90, 120, 151, 181, 212, 243, 273, 304, 334][m - 1]
  }

  /** The day ordinal of the date y-m-d (1 January of year 1 is day 1), so that
      comparing ordinals compares dates. */
  function Datum(y: int, m: int, d: int): int
    requires y >= 1 && 1 <= m <= 12
  {
    var p := y - 1;
    p * 365 + p / 4 - p / 100 + p / 400 + TageVorMonat(m) + (if m > 2 && Schaltjahr(y) then 1 else 0) + d
  }

  /** The number of days of month m in year y. */
  function MonatsLaenge(y: int, m: int): (n: int)
    requires 1 <= m <= 12
    ensures 28 <= n <= 31
    ensures n == 29 <==> m == 2 && Schaltjahr(y)
  {
    if m == 2 then (if Schaltjahr(y) then 29 else 28)
    else if m in {4, 6, 9, 11} then 30 else 31
  }

  predicate GueltigesDatum(y: int, m: int, d: int)
  {
    y >= 1 && 1 <= m <= 12 && 1 <= d <= MonatsLaenge(y, m)
  }

  /** The last day of a month is followed directly by the first of the next. */
  lemma MonatsWechsel(y: int, m: int)
    requires y >= 1 && 1 <= m < 12
    ensures Datum(y, m + 1, 1) == Datum(y, m, MonatsLaenge(y, m)) + 1
  {
  }

  /** Counting the multiples of 4, 100 or 400 up to p + 1 adds one iff p + 1 is one. */
  lemma DivSchritt(p: int, k: int)
    requires p >= 0 && (k == 4 || k == 100 || k == 400)
    ensures (p + 1) / k == p / k + (if (p + 1) % k == 0 then 1 else 0)
  {
  }

  /** 31 December is followed directly by 1 January of the next year. */
  lemma JahresWechsel(y: int)
    requires y >= 1
    ensures Datum(y + 1, 1, 1) == Datum(y, 12, 31) + 1
  {
    var p := y - 1;
    DivSchritt(p, 4);
    DivSchritt(p, 100);
    DivSchritt(p, 400);
  }

  lemma {:induction false} JahrMonoton(y1: int, m1: int, d1: int, y2: int)
    requires GueltigesDatum(y1, m1, d1) && y1 < y2
    ensures Datum(y1, m1, d1) < Datum(y2, 1, 1)
    decreases y2 - y1
  {
    JahresWechsel(y1);
    if y1 + 1 < y2 {
      JahrMonoton(y1 + 1, 1, 1, y2);
    }
  }

  /** Comparing day ordinals compares valid dates: an earlier date
      (year, then month, then day) has a smaller ordinal. */
  lemma DatumOrdnung(y1: int, m1: int, d1: int, y2: int, m2: int, d2: int)
    requires GueltigesDatum(y1, m1, d1) && GueltigesDatum(y2, m2, d2)
    ensures Datum(y1, m1, d1) < Datum(y2, m2, d2) <==>
      y1 < y2 || (y1 == y2 && (m1 < m2 || (m1 == m2 && d1 < d2)))
  {
    if y1 < y2 {
      JahrMonoton(y1, m1, d1, y2);
    } else if y2 < y1 {
      JahrMonoton(y2, m2, d2, y1);
    }
  }

  /** Value snapshots of the objects below, read by the progress engine. */
  datatype ModulV = ModulV(titel: string, ects: int, pruefungsleistung: Option<Pruefungsleistung>, termine: seq<Termin>)
  datatype SemesterV = SemesterV(nummer: int, modulListe: seq<ModulV>)
  datatype StudiengangV = StudiengangV(name: string, semester: seq<SemesterV>)

  class Modul {
    var titel: string
    var ects: int
    var pruefungsleistung: Option<Pruefungsleistung>
    var termine: seq<Termin>

    constructor (titel: string, ects: int, pruefungsleistung: Option<Pruefungsleistung> := None, termine: seq<Termin> := [])
      ensures View() == ModulV(titel, ects, pruefungsleistung, termine)
    {
      this.titel := titel;
      this.ects := ects;
      this.pruefungsleistung := pruefungsleistung;
      this.termine := termine;
    }

    function View(): ModulV
      reads this
    {
      ModulV(titel, ects, pruefungsleistung, termine)
    }

    /** Appends one appointment; title, credits and result stay as they were. */
    method AddTermin(termin: Termin)
      modifies this`termine
      ensures termine == old(termine) + [termin]
      ensures View() == old(View()).(termine := old(termine) + [termin])
    {
      termine := termine + [termin];
    }
  }

  /** The views of a list of modules, position by position. */
  function ModuleViews(ms: seq<Modul>): (vs: seq<ModulV>)
    reads ms
    ensures |vs| == |ms|
    ensures forall i :: 0 <= i < |ms| ==> vs[i] == ms[i].View()
  {
    if ms == [] then [] else ModuleViews(ms[..|ms| - 1]) + [ms[|ms| - 1].View()]
  }

  class Semester {
    var nummer: int
    var modulListe: seq<Modul>

    constructor (nummer: int, modulListe: seq<Modul> := [])
      ensures this.nummer == nummer && this.modulListe == modulListe
    {
      this.nummer := nummer;
      this.modulListe := modulListe;
    }

    function View(): SemesterV
      reads this, modulListe
    {
      SemesterV(nummer, ModuleViews(modulListe))
    }

    /** Appends one module; the semester number stays as it was. */
    method AddModul(modul: Modul)
      modifies this`modulListe
      ensures modulListe == old(modulListe) + [modul]
    {
      modulListe := modulListe + [modul];
    }
  }

  /** Every module object reachable from a list of semesters. */
  ghost function ModulObjects(ss: seq<Semester>): set<Modul>
    reads ss
  {
    set s, m | s in ss && m in s.modulListe :: m
  }

  /** The views of a list of semesters, position by position. */
  function SemesterViews(ss: seq<Semester>): (vs: seq<SemesterV>)
    reads ss, ModulObjects(ss)
    ensures |vs| == |ss|
    ensures forall i :: 0 <= i < |ss| ==> vs[i] == ss[i].View()
  {
    if ss == [] then []
    else
      var last := ss[|ss| - 1];
      assert ModulObjects(ss[..|ss| - 1]) <= ModulObjects(ss);
      assert forall m | m in last.modulListe :: m in ModulObjects(ss);
      SemesterViews(ss[..|ss| - 1]) + [last.View()]
  }

  class Studiengang {
    var name: string
    var semester: seq<Semester>

    constructor (name: string, semester: seq<Semester> := [])
      ensures this.name == name && this.semester == semester
    {
      this.name := name;
      this.semester := semester;
    }

    function View(): StudiengangV
      reads this, semester, ModulObjects(semester)
    {
      StudiengangV(name, SemesterViews(semester))
    }

    /** Appends one semester; the programme name stays as it was. */
    method AddSemester(sem: Semester)
      modifies this`semester
      ensures semester == old(semester) + [sem]
    {
      semester := semester + [sem];
    }
  }

  /** A student; the record is never changed once built. */
  datatype Student = Student(name: string, matrikelnummer: string, studiengang: Studiengang)
}
