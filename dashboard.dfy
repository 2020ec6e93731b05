/** The storage lookup and the dashboard controller. The controller holds the
    loaded student. The figures that main.py computes with loops (credits,
    grades, the semester search, the appointments) are loops here too. The
    credit, grade and appointment loops read a value snapshot of the loaded
    programme; the semester search walks the Semester objects and returns one.
    Every figure is proved equal to the matching specification function of
    Progress applied to the snapshot. */
module Dashboard {
  import opened Records
  import opened Progress

  /** Looks students up by matriculation number. The records are fixed when the
      manager is built; a database behind the same lookup is not part of this model. */
  class SpeicherManager {
    const data: map<string, Student>

    constructor (data: map<string, Student>)
      ensures this.data == data
    {
      this.data := data;
    }

    /** Builds the example records with the builders, as main.py does: six empty
        semesters, then four modules (two with appointments) put into semester 3. */
    static method TestData() returns (data: map<string, Student>)
      ensures data.Keys == {"IU14102835"}
      ensures data["IU14102835"].name == "Julian Hinze"
      ensures data["IU14102835"].matrikelnummer == "IU14102835"
      ensures data["IU14102835"].studiengang.View() == BeispielStudiengang()
    {
      var sg := SechsSemester();
      var liste := BeispielModule();
      var sem3 := sg.semester[2];
      sem3.modulListe := sem3.modulListe + liste;
      forall p | 0 <= p < 6 && p != 2
        ensures sg.semester[p].modulListe == []
      {
        assert sg.semester[p].nummer != sem3.nummer;
      }
      assert sg.semester[2].modulListe == liste;
      BeispielView(sg);
      var student := Student("Julian Hinze", "IU14102835", sg);
      data := map[student.matrikelnummer := student];
    }

    /** The example programme with its six semesters, numbered 1 to 6 and still empty. */
    static method SechsSemester() returns (sg: Studiengang)
      ensures fresh(sg) && sg.name == "Angewandte KI B.Sc." && |sg.semester| == 6
      ensures forall p :: 0 <= p < 6 ==> fresh(sg.semester[p])
      ensures forall p :: 0 <= p < 6 ==> sg.semester[p].nummer == p + 1 && sg.semester[p].modulListe == []
    {
      sg := new Studiengang("Angewandte KI B.Sc.");
      for i := 1 to 7
        invariant sg.name == "Angewandte KI B.Sc." && |sg.semester| == i - 1
        invariant forall p :: 0 <= p < i - 1 ==> fresh(sg.semester[p])
        invariant forall p :: 0 <= p < i - 1 ==> sg.semester[p].nummer == p + 1 && sg.semester[p].modulListe == []
      {
        var sem := new Semester(i);
        sg.AddSemester(sem);
      }
    }

    /** The four modules of semester 3 in the example, built with the builders. */
    static method BeispielModule() returns (liste: seq<Modul>)
      ensures |liste| == 4 && forall m :: m in liste ==> fresh(m)
      ensures liste[0].View() == ModulV("Computer Vision", 5, Some(Pruefungsleistung(Some(200), Bestanden)),
        [Termin("Klausur", Datum(2025, 7, 1))])
      ensures liste[1].View() == ModulV("NLP Grundlagen", 5, Some(Pruefungsleistung(Some(300), Bestanden)), [])
      ensures liste[2].View() == ModulV("Reinforcement Learning", 5, Some(Pruefungsleistung(Some(270), Bestanden)), [])
      ensures liste[3].View() == ModulV("Statistik & Wahrscheinlichkeit", 5, None,
        [Termin("Abgabe Fallstudie", Datum(2025, 7, 15)), Termin("Klausur", Datum(2025, 8, 1))])
    {
      var m1 := new Modul("Computer Vision", 5, Some(Pruefungsleistung(Some(200), Bestanden)));
      m1.AddTermin(Termin("Klausur", Datum(2025, 7, 1)));
      var m2 := new Modul("NLP Grundlagen", 5, Some(Pruefungsleistung(Some(300), Bestanden)));
      var m3 := new Modul("Reinforcement Learning", 5, Some(Pruefungsleistung(Some(270), Bestanden)));
      var m4 := new Modul("Statistik & Wahrscheinlichkeit", 5);
      m4.AddTermin(Termin("Abgabe Fallstudie", Datum(2025, 7, 15)));
      m4.AddTermin(Termin("Klausur", Datum(2025, 8, 1)));
      liste := [m1, m2, m3, m4];
    }

    /** Every record is filed under its own matriculation number. */
    ghost predicate Keyed()
    {
      forall k :: k in data ==> data[k].matrikelnummer == k
    }

    /** The student filed under the number, or None for an unknown number. */
    function LoadStudentByMatrikel(matrikel: string): (r: Option<Student>)
      ensures r.Some? <==> matrikel in data
      ensures r.Some? ==> r.value == data[matrikel]
      ensures r.Some? && Keyed() ==> r.value.matrikelnummer == matrikel
    {
      if matrikel in data then Some(data[matrikel]) else None
    }
  }

  /** A programme object laid out like the example has the example as its view. */
  lemma BeispielView(sg: Studiengang)
    requires sg.name == "Angewandte KI B.Sc." && |sg.semester| == 6
    requires forall p :: 0 <= p < 6 ==> sg.semester[p].nummer == p + 1
    requires forall p :: 0 <= p < 6 && p != 2 ==> sg.semester[p].modulListe == []
    requires var ms := sg.semester[2].modulListe;
      |ms| == 4 &&
      ms[0].View() == ModulV("Computer Vision", 5, Some(Pruefungsleistung(Some(200), Bestanden)),
        [Termin("Klausur", Datum(2025, 7, 1))]) &&
      ms[1].View() == ModulV("NLP Grundlagen", 5, Some(Pruefungsleistung(Some(300), Bestanden)), []) &&
      ms[2].View() == ModulV("Reinforcement Learning", 5, Some(Pruefungsleistung(Some(270), Bestanden)), []) &&
      ms[3].View() == ModulV("Statistik & Wahrscheinlichkeit", 5, None,
        [Termin("Abgabe Fallstudie", Datum(2025, 7, 15)), Termin("Klausur", Datum(2025, 8, 1))])
    ensures sg.View() == BeispielStudiengang()
  {
    var lit := BeispielStudiengang().semester;
    var views := ModuleViews(sg.semester[2].modulListe);
    forall q | 0 <= q < 4
      ensures views[q] == lit[2].modulListe[q]
    {
      if q == 0 {
      } else if q == 1 {
      } else if q == 2 {
      } else {
      }
    }
    assert views == lit[2].modulListe;
    forall p | 0 <= p < 6
      ensures sg.semester[p].View() == lit[p]
    {
    }
    assert SemesterViews(sg.semester) == lit;
  }

  /** The example programme as a value: six semesters, the third holding four modules. */
  function BeispielStudiengang(): StudiengangV
  {
    StudiengangV("Angewandte KI B.Sc.", [
      SemesterV(1, []), SemesterV(2, []),
      SemesterV(3, [
        ModulV("Computer Vision", 5, Some(Pruefungsleistung(Some(200), Bestanden)),
          [Termin("Klausur", Datum(2025, 7, 1))]),
        ModulV("NLP Grundlagen", 5, Some(Pruefungsleistung(Some(300), Bestanden)), []),
        ModulV("Reinforcement Learning", 5, Some(Pruefungsleistung(Some(270), Bestanden)), []),
        ModulV("Statistik & Wahrscheinlichkeit", 5, None,
          [Termin("Abgabe Fallstudie", Datum(2025, 7, 15)), Termin("Klausur", Datum(2025, 8, 1))])]),
      SemesterV(4, []), SemesterV(5, []), SemesterV(6, [])])
  }

  class DashboardController {
    const storage: SpeicherManager
    var student: Option<Student>

    constructor (storage: SpeicherManager)
      ensures this.storage == storage && student == None
    {
      this.storage := storage;
      student := None;
    }

    /** Looks the student up and keeps the result; true when one was found. */
    method Load(matrikel: string) returns (found: bool)
      modifies this`student
      ensures student == storage.LoadStudentByMatrikel(matrikel)
      ensures found <==> matrikel in storage.data
      ensures found ==> student == Some(storage.data[matrikel])
    {
      student := storage.LoadStudentByMatrikel(matrikel);
      found := student.Some?;
    }

    /** The programme of the loaded student; callers must have loaded one. */
    function Sg(): Studiengang
      requires student.Some?
      reads this
    {
      student.value.studiengang
    }

    /** The loaded programme's semesters as values. */
    function Snapshot(): seq<SemesterV>
      requires student.Some?
      reads this, Sg(), Sg().semester, ModulObjects(Sg().semester)
    {
      Sg().View().semester
    }

    /** The current semester number: 1 when no semester of the loaded programme holds
        a module, otherwise the largest number of a semester that does. */
    function ErmittleAktuellesSemester(): (c: int)
      requires student.Some?
      reads this, Sg(), Sg().semester, ModulObjects(Sg().semester)
      ensures var sems := Snapshot();
        (forall i :: 0 <= i < |sems| ==> sems[i].modulListe == []) ==> c == 1
      ensures var sems := Snapshot();
        (exists i :: 0 <= i < |sems| && sems[i].modulListe != []) ==>
          (exists i :: 0 <= i < |sems| && sems[i].modulListe != [] && sems[i].nummer == c) &&
          (forall i :: 0 <= i < |sems| && sems[i].modulListe != [] ==> sems[i].nummer <= c)
    {
      AktuellesSemesterSpec(Snapshot());
      AktuellesSemester(Snapshot())
    }

    /** The current semester number and the target, passed through unchanged. */
    method SemesterProgress(zielSemester: int := 6) returns (current: int, ziel: int)
      requires student.Some?
      ensures current == AktuellesSemester(Snapshot())
      ensures ziel == zielSemester
    {
      current := ErmittleAktuellesSemester();
      ziel := zielSemester;
    }

    /** Credits of the passed modules and the target, passed through unchanged. */
    method EctsProgress(zielEcts: int := 180) returns (ectsSum: int, ziel: int)
      requires student.Some?
      ensures ectsSum == Earned(Flatten(Snapshot()))
      ensures ziel == zielEcts
    {
      var sems := Snapshot();
      ectsSum := 0;
      for i := 0 to |sems|
        invariant ectsSum == Earned(Flatten(sems[..i]))
        invariant sems == Snapshot()
      {
        var ms := sems[i].modulListe;
        PrefixEnds(Flatten(sems[..i]), ms);
        for j := 0 to |ms|
          invariant ectsSum == Earned(Flatten(sems[..i]) + ms[..j])
          invariant sems == Snapshot()
        {
          var m := ms[j];
          if m.pruefungsleistung.Some? && m.pruefungsleistung.value.status == Bestanden {
            ectsSum := ectsSum + m.ects;
          }
          PrefixSnoc(Flatten(sems[..i]), ms, j);
          EarnedSnoc(Flatten(sems[..i]) + ms[..j], m);
        }
        FlattenSnoc(sems, i);
      }
      assert sems[..|sems|] == sems;
      ziel := zielEcts;
    }

    /** The grades of all graded modules, semester by semester. */
    method CollectNoten() returns (noten: seq<int>)
      requires student.Some?
      ensures noten == Noten(Flatten(Snapshot()))
    {
      var sems := Snapshot();
      noten := [];
      for i := 0 to |sems|
        invariant noten == Noten(Flatten(sems[..i]))
        invariant sems == Snapshot()
      {
        var ms := sems[i].modulListe;
        PrefixEnds(Flatten(sems[..i]), ms);
        for j := 0 to |ms|
          invariant noten == Noten(Flatten(sems[..i]) + ms[..j])
          invariant sems == Snapshot()
        {
          var m := ms[j];
          if m.pruefungsleistung.Some? && m.pruefungsleistung.value.note.Some? {
            noten := noten + [m.pruefungsleistung.value.note.value];
          }
          PrefixSnoc(Flatten(sems[..i]), ms, j);
          NotenSnoc(Flatten(sems[..i]) + ms[..j], m);
        }
        FlattenSnoc(sems, i);
      }
      assert sems[..|sems|] == sems;
    }

    /** The grade average in hundredths, or None when nothing is graded. */
    method Notendurchschnitt() returns (schnitt: Option<int>)
      requires student.Some?
      ensures schnitt == Progress.Notendurchschnitt(Flatten(Snapshot()))
      ensures schnitt.None? <==> forall m :: m in Flatten(Snapshot()) ==> !IsBenotet(m)
    {
      var noten := CollectNoten();
      if noten == [] {
        schnitt := None;
      } else {
        schnitt := Some(RoundedMean(Sum(noten), |noten|));
      }
      NotendurchschnittSpec(Flatten(Snapshot()));
    }

    /** (title, grade) of every graded module, semester by semester. */
    method Notenliste() returns (ergebnis: seq<(string, int)>)
      requires student.Some?
      ensures ergebnis == Progress.Notenliste(Flatten(Snapshot()))
    {
      var sems := Snapshot();
      ergebnis := [];
      for i := 0 to |sems|
        invariant ergebnis == Progress.Notenliste(Flatten(sems[..i]))
        invariant sems == Snapshot()
      {
        var ms := sems[i].modulListe;
        PrefixEnds(Flatten(sems[..i]), ms);
        for j := 0 to |ms|
          invariant ergebnis == Progress.Notenliste(Flatten(sems[..i]) + ms[..j])
          invariant sems == Snapshot()
        {
          var m := ms[j];
          if m.pruefungsleistung.Some? && m.pruefungsleistung.value.note.Some? {
            ergebnis := ergebnis + [(m.titel, m.pruefungsleistung.value.note.value)];
          }
          PrefixSnoc(Flatten(sems[..i]), ms, j);
          NotenSnoc(Flatten(sems[..i]) + ms[..j], m);
        }
        FlattenSnoc(sems, i);
      }
      assert sems[..|sems|] == sems;
    }

    /** The first semester object numbered like the current semester, or null. */
    method AktuellesSemesterObjekt() returns (sem: Semester?)
      requires student.Some?
      ensures var k := FindSemester(Snapshot(), AktuellesSemester(Snapshot()));
        (sem == null <==> k.None?) && (k.Some? ==> sem == Sg().semester[k.value])
    {
      ghost var vs := Snapshot();
      var cur := ErmittleAktuellesSemester();
      assert cur == AktuellesSemester(vs);
      var sems := Sg().semester;
      assert forall p :: 0 <= p < |vs| ==> vs[p].nummer == sems[p].nummer;
      for i := 0 to |sems|
        invariant forall p :: 0 <= p < i ==> vs[p].nummer != cur
      {
        if sems[i].nummer == cur {
          FindSemesterAt(vs, cur, i);
          return sems[i];
        }
      }
      return null;
    }

    /** Titles of the modules of the current semester, in stored order. */
    method AktuellBelegteModule() returns (titel: seq<string>)
      requires student.Some?
      ensures titel == Progress.AktuellBelegteModule(Snapshot())
    {
      var sem := AktuellesSemesterObjekt();
      if sem != null {
        titel := Titel(sem.View().modulListe);
        ghost var k := FindSemester(Snapshot(), AktuellesSemester(Snapshot())).value;
        assert Snapshot()[k] == sem.View();
      } else {
        titel := [];
      }
    }

    /** Appointments dated on or after today, labelled and ordered by date. */
    method KommendeTermine(today: int) returns (termine: seq<Eintrag>)
      requires student.Some?
      ensures termine == Progress.KommendeTermine(Snapshot(), today)
      ensures SortedByDate(termine)
      ensures forall e :: e in termine ==> e.1 >= today
    {
      var sems := Snapshot();
      var out := SammleTermine(sems, today);
      termine := SortByDate(out);
      KommendeTermineSpec(sems, today);
      assert sems == Snapshot();
    }

    /** The walk of KommendeTermine over every appointment of every module of every
        semester, keeping those dated on or after today, in the order met. */
    static method SammleTermine(sems: seq<SemesterV>, today: int) returns (out: seq<Eintrag>)
      ensures out == Anstehend(Flatten(sems), today)
    {
      out := [];
      for i := 0 to |sems|
        invariant out == Anstehend(Flatten(sems[..i]), today)
      {
        var ms := sems[i].modulListe;
        PrefixEnds(Flatten(sems[..i]), ms);
        for j := 0 to |ms|
          invariant out == Anstehend(Flatten(sems[..i]) + ms[..j], today)
        {
          var m := ms[j];
          ghost var before := out;
          assert before + TermineAb(m.termine[..0], m.titel, today) == before;
          for k := 0 to |m.termine|
            invariant out == before + TermineAb(m.termine[..k], m.titel, today)
          {
            var t := m.termine[k];
            if t.datum >= today {
              out := out + [(Label(t, m.titel), t.datum)];
            }
            assert m.termine[..k + 1] == m.termine[..k] + [t];
            TermineAbSnoc(m.termine[..k], t, m.titel, today);
          }
          assert m.termine[..|m.termine|] == m.termine;
          PrefixSnoc(Flatten(sems[..i]), ms, j);
          AnstehendSnoc(Flatten(sems[..i]) + ms[..j], m, today);
        }
        FlattenSnoc(sems, i);
      }
      assert sems[..|sems|] == sems;
    }
  }
}
