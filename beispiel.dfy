/** The dashboard figures of the example dataset, proved: every figure the
    dashboard shows for the example student is pinned down, and loading finds the
    student under their number and not under an unknown one. */
module Beispiel {
  import opened Records
  import opened Progress
  import opened Dashboard

  /** The modules of the example, all in semester 3. */
  function ModuleSemester3(): seq<ModulV>
  {
    BeispielStudiengang().semester[2].modulListe
  }

  lemma BeispielFlatten()
    ensures Flatten(BeispielStudiengang().semester) == ModuleSemester3()
  {
    var sems := BeispielStudiengang().semester;
    assert sems[..0] == [];
    FlattenSnoc(sems, 0);
    FlattenSnoc(sems, 1);
    FlattenSnoc(sems, 2);
    FlattenSnoc(sems, 3);
    FlattenSnoc(sems, 4);
    FlattenSnoc(sems, 5);
    assert sems[..6] == sems;
  }

  /** Semester 3 is the only one holding modules, so it is the current one. */
  lemma BeispielSemester()
    ensures AktuellesSemester(BeispielStudiengang().semester) == 3
  {
    var sems := BeispielStudiengang().semester;
    assert sems[..0] == [];
    NummernSnoc(sems, 0);
    NummernSnoc(sems, 1);
    NummernSnoc(sems, 2);
    NummernSnoc(sems, 3);
    NummernSnoc(sems, 4);
    NummernSnoc(sems, 5);
    assert sems[..6] == sems;
  }

  /** The prefixes of the example's module list, one module at a time. */
  lemma ModulePrefixes()
    ensures ModuleSemester3()[..0] == []
    ensures forall k :: 0 <= k < 4 ==> ModuleSemester3()[..k + 1] == ModuleSemester3()[..k] + [ModuleSemester3()[k]]
    ensures ModuleSemester3()[..4] == ModuleSemester3()
  {
    var ms := ModuleSemester3();
    assert ms[..4] == ms;
  }

  /** Three passed modules of 5 credits each; the fourth has no result. */
  lemma BeispielEcts()
    ensures Earned(Flatten(BeispielStudiengang().semester)) == 15
  {
    BeispielFlatten();
    ModulePrefixes();
    var ms := ModuleSemester3();
    EarnedSnoc(ms[..0], ms[0]);
    EarnedSnoc(ms[..1], ms[1]);
    EarnedSnoc(ms[..2], ms[2]);
    EarnedSnoc(ms[..3], ms[3]);
  }

  /** Grades 2.0, 3.0 and 2.7 average to 2.5666..., shown as 2.57. */
  lemma BeispielNoten()
    ensures Noten(Flatten(BeispielStudiengang().semester)) == [200, 300, 270]
    ensures Progress.Notenliste(Flatten(BeispielStudiengang().semester)) ==
      [("Computer Vision", 200), ("NLP Grundlagen", 300), ("Reinforcement Learning", 270)]
    ensures Progress.Notendurchschnitt(Flatten(BeispielStudiengang().semester)) == Some(257)
  {
    BeispielFlatten();
    ModulePrefixes();
    var ms := ModuleSemester3();
    NotenSnoc(ms[..0], ms[0]);
    NotenSnoc(ms[..1], ms[1]);
    NotenSnoc(ms[..2], ms[2]);
    NotenSnoc(ms[..3], ms[3]);
    var noten := [200, 300, 270];
    assert noten[..2] == [200, 300] && [200, 300][..1] == [200] && [200][..0] == [];
    assert Sum(noten) == 770;
  }

  /** The titles of semester 3's modules in stored order. */
  lemma BeispielBelegt()
    ensures Progress.AktuellBelegteModule(BeispielStudiengang().semester) ==
      ["Computer Vision", "NLP Grundlagen", "Reinforcement Learning", "Statistik & Wahrscheinlichkeit"]
  {
    var sems := BeispielStudiengang().semester;
    BeispielSemester();
    FindSemesterAt(sems, 3, 2);
    var ms := sems[2].modulListe;
    var ts := Progress.AktuellBelegteModule(sems);
    assert |ts| == 4 && forall i :: 0 <= i < 4 ==> ts[i] == ms[i].titel;
  }

  lemma AnstehendVier(ms: seq<ModulV>, today: int)
    requires |ms| == 4
    ensures Anstehend(ms, today) == TermineAb(ms[0].termine, ms[0].titel, today) +
      TermineAb(ms[1].termine, ms[1].titel, today) + TermineAb(ms[2].termine, ms[2].titel, today) +
      TermineAb(ms[3].termine, ms[3].titel, today)
  {
    assert ms[..0] == [];
    assert ms[..4] == ms;
    forall k | 0 <= k < 4 ensures ms[..k + 1] == ms[..k] + [ms[k]] {
    }
    AnstehendSnoc(ms[..0], ms[0], today);
    AnstehendSnoc(ms[..1], ms[1], today);
    AnstehendSnoc(ms[..2], ms[2], today);
    AnstehendSnoc(ms[..3], ms[3], today);
  }

  lemma TermineAbEins(a: Termin, titel: string, today: int)
    requires a.datum >= today
    ensures TermineAb([a], titel, today) == [(Label(a, titel), a.datum)]
  {
    TermineAbSnoc([], a, titel, today);
    assert [] + [a] == [a];
  }

  lemma TermineAbZwei(a: Termin, b: Termin, titel: string, today: int)
    requires a.datum >= today && b.datum >= today
    ensures TermineAb([a, b], titel, today) == [(Label(a, titel), a.datum), (Label(b, titel), b.datum)]
  {
    TermineAbEins(a, titel, today);
    TermineAbSnoc([a], b, titel, today);
    assert [a] + [b] == [a, b];
  }

  /** The upcoming entries of the example in the order of the walk. */
  lemma BeispielAnstehend(today: int)
    requires today == Datum(2025, 1, 1)
    ensures var ms := ModuleSemester3();
      Anstehend(Flatten(BeispielStudiengang().semester), today) ==
        [(Label(ms[0].termine[0], ms[0].titel), ms[0].termine[0].datum),
         (Label(ms[3].termine[0], ms[3].titel), ms[3].termine[0].datum),
         (Label(ms[3].termine[1], ms[3].titel), ms[3].termine[1].datum)]
  {
    BeispielFlatten();
    var ms := ModuleSemester3();
    AnstehendVier(ms, today);
    TermineAbEins(ms[0].termine[0], ms[0].titel, today);
    TermineAbZwei(ms[3].termine[0], ms[3].termine[1], ms[3].titel, today);
  }

  /** The first upcoming entry of the example as the dashboard shows it. */
  lemma BeispielLabel()
    ensures Label(Termin("Klausur", Datum(2025, 7, 1)), "Computer Vision") == "Klausur (Computer Vision)"
  {
  }

  /** From 1 January 2025 all three appointments are ahead; they come out by date. */
  lemma BeispielTermine(today: int)
    requires today == Datum(2025, 1, 1)
    ensures Progress.KommendeTermine(BeispielStudiengang().semester, today) ==
      [(Label(Termin("Klausur", Datum(2025, 7, 1)), "Computer Vision"), Datum(2025, 7, 1)),
       (Label(Termin("Abgabe Fallstudie", Datum(2025, 7, 15)), "Statistik & Wahrscheinlichkeit"), Datum(2025, 7, 15)),
       (Label(Termin("Klausur", Datum(2025, 8, 1)), "Statistik & Wahrscheinlichkeit"), Datum(2025, 8, 1))]
  {
    BeispielAnstehend(today);
    var r := Anstehend(Flatten(BeispielStudiengang().semester), today);
    assert Datum(2025, 7, 1) < Datum(2025, 7, 15) < Datum(2025, 8, 1);
    SortByDateSorted(r);
  }

  /** The command-line front end's start with the example records: an unknown number
      is refused, the student's own number is found, and the progress figures are
      shown against their default targets of 6 semesters and 180 ECTS. The programme
      the controller then holds has the example as its view (SpeicherManager.TestData),
      for which the lemmas above fix every figure of the dashboard. */
  method BeispielLaden() returns (ctrl: DashboardController, unbekannt: bool, gefunden: bool,
                                  zielSemester: int, zielEcts: int)
    ensures !unbekannt && gefunden
    ensures ctrl.student.Some? && ctrl.student.value.name == "Julian Hinze"
    ensures ctrl.student.value.matrikelnummer == "IU14102835"
    ensures zielSemester == 6 && zielEcts == 180
  {
    var data := SpeicherManager.TestData();
    var storage := new SpeicherManager(data);
    ctrl := new DashboardController(storage);
    unbekannt := ctrl.Load("UNKNOWN");
    gefunden := ctrl.Load("IU14102835");
    var semester, ects;
    semester, zielSemester := ctrl.SemesterProgress();
    ects, zielEcts := ctrl.EctsProgress();
  }
}
