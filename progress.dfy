/** The derivations of the dashboard, stated on value snapshots of a
    programme's semesters. Each function here is the specification that a
    method of the dashboard controller is proved against; the lemmas say what
    the derived values mean. */
module Progress {
  import opened Records

  // ---------------------------------------------------------------------
  // Walking the tree: semester order first, then module order as stored.

  /** All modules of a programme, semester by semester, each semester's in stored order. */
  function Flatten(sems: seq<SemesterV>): seq<ModulV>
  {
    if sems == [] then [] else Flatten(sems[..|sems| - 1]) + sems[|sems| - 1].modulListe
  }

  /** Flattening preserves order: it distributes over concatenation. */
  lemma {:induction false} FlattenAppend(a: seq<SemesterV>, b: seq<SemesterV>)
    ensures Flatten(a + b) == Flatten(a) + Flatten(b)
    decreases |b|
  {
    if b != [] {
      var init, last := b[..|b| - 1], b[|b| - 1];
      assert (a + b)[..|a + b| - 1] == a + init;
      FlattenAppend(a, init);
    } else {
      assert a + b == a;
    }
  }

  lemma FlattenSnoc(sems: seq<SemesterV>, i: int)
    requires 0 <= i < |sems|
    ensures Flatten(sems[..i + 1]) == Flatten(sems[..i]) + sems[i].modulListe
  {
    assert sems[..i + 1][..i] == sems[..i];
  }

  lemma PrefixSnoc<T>(done: seq<T>, s: seq<T>, j: int)
    requires 0 <= j < |s|
    ensures done + s[..j + 1] == (done + s[..j]) + [s[j]]
  {
    assert s[..j + 1] == s[..j] + [s[j]];
  }

  lemma PrefixEnds<T>(done: seq<T>, s: seq<T>)
    ensures done + s[..0] == done && done + s[..|s|] == done + s
  {
    assert s[..|s|] == s;
  }

  /** A module is in the flattening exactly when some semester holds it. */
  lemma {:induction false} FlattenMember(sems: seq<SemesterV>, m: ModulV)
    ensures m in Flatten(sems) <==> exists i :: 0 <= i < |sems| && m in sems[i].modulListe
  {
    if sems != [] {
      var init := sems[..|sems| - 1];
      FlattenMember(init, m);
      if m in Flatten(init) {
        var i :| 0 <= i < |init| && m in init[i].modulListe;
        assert sems[i] == init[i];
      }
      if i :| 0 <= i < |sems| && m in sems[i].modulListe {
        if i < |init| {
          assert init[i] == sems[i];
        }
      }
    }
  }

  // ---------------------------------------------------------------------
  // Earned credits.

  /** The module has an exam result whose status is "bestanden". */
  predicate IsBestanden(m: ModulV)
  {
    m.pruefungsleistung.Some? && m.pruefungsleistung.value.status == Bestanden
  }

  /** What one module adds to the earned credits. */
  function Credit(m: ModulV): int
  {
    if IsBestanden(m) then m.ects else 0
  }

  /** Credits earned over a list of modules. */
  function Earned(ms: seq<ModulV>): int
  {
    if ms == [] then 0 else Earned(ms[..|ms| - 1]) + Credit(ms[|ms| - 1])
  }

  lemma EarnedSnoc(ms: seq<ModulV>, m: ModulV)
    ensures Earned(ms + [m]) == Earned(ms) + Credit(m)
  {
    assert (ms + [m])[..|ms|] == ms;
  }

  /** Earned credits add up over concatenated module lists. */
  lemma {:induction false} EarnedAppend(a: seq<ModulV>, b: seq<ModulV>)
    ensures Earned(a + b) == Earned(a) + Earned(b)
    decreases |b|
  {
    if b == [] {
      assert a + b == a;
    } else {
      var init, last := b[..|b| - 1], b[|b| - 1];
      assert a + b == (a + init) + [last];
      EarnedSnoc(a + init, last);
      EarnedAppend(a, init);
    }
  }

  /** Every module contributes exactly once: its credits when it is passed, otherwise nothing. */
  lemma {:induction false} EarnedCountsEachModuleOnce(ms: seq<ModulV>, k: int)
    requires 0 <= k < |ms|
    ensures Earned(ms) == Earned(ms[..k] + ms[k + 1..]) + (if IsBestanden(ms[k]) then ms[k].ects else 0)
  {
    var before, after := ms[..k], ms[k + 1..];
    assert ms == (before + [ms[k]]) + after;
    EarnedAppend(before + [ms[k]], after);
    EarnedSnoc(before, ms[k]);
    EarnedAppend(before, after);
  }

  /** Modules without a passed result earn nothing at all. */
  lemma {:induction false} EarnedWithoutPassed(ms: seq<ModulV>)
    requires forall i :: 0 <= i < |ms| ==> !IsBestanden(ms[i])
    ensures Earned(ms) == 0
  {
    if ms != [] {
      EarnedWithoutPassed(ms[..|ms| - 1]);
    }
  }

  // ---------------------------------------------------------------------
  // Grades.

  /** The module has an exam result carrying a grade, whatever its status. */
  predicate IsBenotet(m: ModulV)
  {
    m.pruefungsleistung.Some? && m.pruefungsleistung.value.note.Some?
  }

  function NoteOf(m: ModulV): int
    requires IsBenotet(m)
  {
    m.pruefungsleistung.value.note.value
  }

  /** The grades of the graded modules, in order. */
  function Noten(ms: seq<ModulV>): (ns: seq<int>)
    ensures |ns| <= |ms|
  {
    if ms == [] then []
    else
      var last := ms[|ms| - 1];
      Noten(ms[..|ms| - 1]) + if IsBenotet(last) then [NoteOf(last)] else []
  }

  /** (title, grade) of the graded modules, in order. */
  function Notenliste(ms: seq<ModulV>): (nl: seq<(string, int)>)
    ensures |nl| <= |ms|
  {
    if ms == [] then []
    else
      var last := ms[|ms| - 1];
      Notenliste(ms[..|ms| - 1]) + if IsBenotet(last) then [(last.titel, NoteOf(last))] else []
  }

  lemma NotenSnoc(ms: seq<ModulV>, m: ModulV)
    ensures Noten(ms + [m]) == Noten(ms) + if IsBenotet(m) then [NoteOf(m)] else []
    ensures Notenliste(ms + [m]) == Notenliste(ms) + if IsBenotet(m) then [(m.titel, NoteOf(m))] else []
  {
    assert (ms + [m])[..|ms|] == ms;
  }

  /** The grade list has one entry per averaged grade, carrying that grade. */
  lemma {:induction false} NotenlisteMatchesNoten(ms: seq<ModulV>)
    ensures |Notenliste(ms)| == |Noten(ms)|
    ensures forall k :: 0 <= k < |Noten(ms)| ==> Notenliste(ms)[k].1 == Noten(ms)[k]
  {
    if ms != [] {
      NotenlisteMatchesNoten(ms[..|ms| - 1]);
    }
  }

  /** No grade is averaged exactly when no module carries a grade. */
  lemma {:induction false} NotenEmptyIffUngraded(ms: seq<ModulV>)
    ensures Noten(ms) == [] <==> forall i :: 0 <= i < |ms| ==> !IsBenotet(ms[i])
  {
    if ms != [] {
      var init := ms[..|ms| - 1];
      NotenEmptyIffUngraded(init);
      if Noten(ms) == [] {
        forall i | 0 <= i < |ms| ensures !IsBenotet(ms[i]) {
          if i < |init| {
            assert ms[i] == init[i];
          }
        }
      }
    }
  }

  /** A pair is in the grade list exactly when some graded module has that title and grade. */
  lemma {:induction false} NotenlisteMember(ms: seq<ModulV>, p: (string, int))
    ensures p in Notenliste(ms) <==>
      exists i :: 0 <= i < |ms| && IsBenotet(ms[i]) && p == (ms[i].titel, NoteOf(ms[i]))
  {
    if ms != [] {
      var init, last := ms[..|ms| - 1], ms[|ms| - 1];
      NotenlisteMember(init, p);
      if p in Notenliste(init) {
        var i :| 0 <= i < |init| && IsBenotet(init[i]) && p == (init[i].titel, NoteOf(init[i]));
        assert ms[i] == init[i];
      }
      if i :| 0 <= i < |ms| && IsBenotet(ms[i]) && p == (ms[i].titel, NoteOf(ms[i])) {
        if i < |init| {
          assert init[i] == ms[i];
        }
      }
    }
  }

  /** The grade list keeps order: it distributes over concatenation. */
  lemma {:induction false} NotenlisteAppend(a: seq<ModulV>, b: seq<ModulV>)
    ensures Notenliste(a + b) == Notenliste(a) + Notenliste(b)
    ensures Noten(a + b) == Noten(a) + Noten(b)
    decreases |b|
  {
    if b == [] {
      assert a + b == a;
    } else {
      var init, last := b[..|b| - 1], b[|b| - 1];
      assert a + b == (a + init) + [last];
      NotenSnoc(a + init, last);
      NotenlisteAppend(a, init);
    }
  }

  function Sum(xs: seq<int>): int
  {
    if xs == [] then 0 else Sum(xs[..|xs| - 1]) + xs[|xs| - 1]
  }

  function Abs(x: int): int
  {
    if x < 0 then -x else x
  }

  /** sum / count rounded to a whole number of hundredths, halves to even. */
  function RoundedMean(sum: int, count: int): (r: int)
    requires count > 0
    ensures 2 * Abs(r * count - sum) <= count
    ensures 2 * Abs(r * count - sum) == count ==> r % 2 == 0
  {
    var q, rem := sum / count, sum % count;
    assert sum == q * count + rem;
    assert (q + 1) * count - sum == count - rem;
    if 2 * rem > count then q + 1
    else if 2 * rem < count then q
    else if q % 2 == 0 then q
    else q + 1
  }

  /** The grade average over a list of modules; None when no module is graded. */
  function Notendurchschnitt(ms: seq<ModulV>): (r: Option<int>)
    ensures r.None? <==> Noten(ms) == []
    ensures r.Some? ==> 2 * Abs(r.value * |Noten(ms)| - Sum(Noten(ms))) <= |Noten(ms)|
  {
    var noten := Noten(ms);
    if noten == [] then None else Some(RoundedMean(Sum(noten), |noten|))
  }

  /** The average is absent exactly when no module carries a grade; otherwise it is
      the mean of the (non-empty) list of grades, to the nearest hundredth. */
  lemma NotendurchschnittSpec(ms: seq<ModulV>)
    ensures Notendurchschnitt(ms).None? <==> forall i :: 0 <= i < |ms| ==> !IsBenotet(ms[i])
    ensures Notendurchschnitt(ms).Some? ==>
      Noten(ms) != [] &&
      2 * Abs(Notendurchschnitt(ms).value * |Noten(ms)| - Sum(Noten(ms))) <= |Noten(ms)|
  {
    NotenEmptyIffUngraded(ms);
  }

  // ---------------------------------------------------------------------
  // The current semester.

  /** Numbers of the semesters that hold at least one module, in order. */
  function Nummern(sems: seq<SemesterV>): (ns: seq<int>)
    ensures |ns| <= |sems|
  {
    if sems == [] then []
    else
      var last := sems[|sems| - 1];
      Nummern(sems[..|sems| - 1]) + if last.modulListe != [] then [last.nummer] else []
  }

  lemma NummernSnoc(sems: seq<SemesterV>, i: int)
    requires 0 <= i < |sems|
    ensures Nummern(sems[..i + 1]) ==
      Nummern(sems[..i]) + if sems[i].modulListe != [] then [sems[i].nummer] else []
  {
    assert sems[..i + 1][..i] == sems[..i];
  }

  lemma {:induction false} NummernMember(sems: seq<SemesterV>, n: int)
    ensures n in Nummern(sems) <==>
      exists i :: 0 <= i < |sems| && sems[i].modulListe != [] && sems[i].nummer == n
  {
    if sems != [] {
      var init := sems[..|sems| - 1];
      NummernMember(init, n);
      if n in Nummern(init) {
        var i :| 0 <= i < |init| && init[i].modulListe != [] && init[i].nummer == n;
        assert sems[i] == init[i];
      }
      if i :| 0 <= i < |sems| && sems[i].modulListe != [] && sems[i].nummer == n {
        if i < |init| {
          assert init[i] == sems[i];
        }
      }
    }
  }

  /** The largest element of a non-empty list. */
  function MaxOf(xs: seq<int>): (r: int)
    requires xs != []
    ensures r in xs
    ensures forall i :: 0 <= i < |xs| ==> xs[i] <= r
  {
    if |xs| == 1 then xs[0]
    else
      var m := MaxOf(xs[..|xs| - 1]);
      if xs[|xs| - 1] > m then xs[|xs| - 1] else m
  }

  /** The largest number among semesters that hold modules, or 1 when there is none. */
  function AktuellesSemester(sems: seq<SemesterV>): (c: int)
    ensures Nummern(sems) == [] ==> c == 1
    ensures Nummern(sems) != [] ==> c in Nummern(sems)
    ensures forall k :: 0 <= k < |Nummern(sems)| ==> Nummern(sems)[k] <= c
  {
    var nummern := Nummern(sems);
    if nummern == [] then 1 else MaxOf(nummern)
  }

  /** 1 when every semester is empty; otherwise the number of a non-empty semester
      that no non-empty semester exceeds. */
  lemma AktuellesSemesterSpec(sems: seq<SemesterV>)
    ensures (forall i :: 0 <= i < |sems| ==> sems[i].modulListe == []) ==> AktuellesSemester(sems) == 1
    ensures (exists i :: 0 <= i < |sems| && sems[i].modulListe != []) ==>
      (exists i :: 0 <= i < |sems| && sems[i].modulListe != [] && sems[i].nummer == AktuellesSemester(sems)) &&
      (forall i :: 0 <= i < |sems| && sems[i].modulListe != [] ==> sems[i].nummer <= AktuellesSemester(sems))
  {
    var nummern := Nummern(sems);
    if nummern == [] {
      forall i | 0 <= i < |sems| ensures sems[i].modulListe == [] {
        NummernMember(sems, sems[i].nummer);
      }
    } else {
      var c := AktuellesSemester(sems);
      NummernMember(sems, c);
      forall i | 0 <= i < |sems| && sems[i].modulListe != [] ensures sems[i].nummer <= c {
        NummernMember(sems, sems[i].nummer);
      }
    }
  }

  // ---------------------------------------------------------------------
  // The semester object of the current semester and its modules.

  /** Index of the first semester numbered n, if any. */
  function FindSemester(sems: seq<SemesterV>, n: int): (r: Option<nat>)
    ensures r.Some? ==> (r.value < |sems| && sems[r.value].nummer == n &&
      forall i :: 0 <= i < r.value ==> sems[i].nummer != n)
    ensures r.None? ==> forall i :: 0 <= i < |sems| ==> sems[i].nummer != n
  {
    if sems == [] then None
    else if sems[0].nummer == n then Some(0)
    else
      match FindSemester(sems[1..], n)
      case None => None
      case Some(k) => Some(k + 1)
  }

  /** The first index numbered n is what FindSemester returns. */
  lemma FindSemesterAt(sems: seq<SemesterV>, n: int, k: int)
    requires 0 <= k < |sems| && sems[k].nummer == n
    requires forall p :: 0 <= p < k ==> sems[p].nummer != n
    ensures FindSemester(sems, n) == Some(k)
  {
    var r := FindSemester(sems, n);
    if r.Some? {
      assert !(r.value < k) && !(k < r.value);
    }
  }

  function Titel(ms: seq<ModulV>): (ts: seq<string>)
    ensures |ts| == |ms|
    ensures forall i :: 0 <= i < |ms| ==> ts[i] == ms[i].titel
  {
    seq(|ms|, i requires 0 <= i < |ms| => ms[i].titel)
  }

  /** Titles of the modules of the first semester numbered like the current one. */
  function AktuellBelegteModule(sems: seq<SemesterV>): (ts: seq<string>)
    ensures FindSemester(sems, AktuellesSemester(sems)).None? ==> ts == []
    ensures FindSemester(sems, AktuellesSemester(sems)).Some? ==>
      var k := FindSemester(sems, AktuellesSemester(sems)).value;
      |ts| == |sems[k].modulListe| && forall i :: 0 <= i < |ts| ==> ts[i] == sems[k].modulListe[i].titel
  {
    match FindSemester(sems, AktuellesSemester(sems))
    case None => []
    case Some(k) => Titel(sems[k].modulListe)
  }

  /** When some semester holds modules, the current semester's object is found. When
      numbers are also unique, it is a non-empty one and the list holds its titles. */
  lemma AktuellesSemesterGefunden(sems: seq<SemesterV>)
    requires exists i :: 0 <= i < |sems| && sems[i].modulListe != []
    ensures FindSemester(sems, AktuellesSemester(sems)).Some?
    ensures (forall i, j :: 0 <= i < j < |sems| ==> sems[i].nummer != sems[j].nummer) ==>
      var k := FindSemester(sems, AktuellesSemester(sems)).value;
      sems[k].modulListe != [] && AktuellBelegteModule(sems) == Titel(sems[k].modulListe) &&
      AktuellBelegteModule(sems) != []
  {
    AktuellesSemesterSpec(sems);
    var c := AktuellesSemester(sems);
    var i :| 0 <= i < |sems| && sems[i].modulListe != [] && sems[i].nummer == c;
    var r := FindSemester(sems, c);
    assert r.Some?;
    if forall i, j :: 0 <= i < j < |sems| ==> sems[i].nummer != sems[j].nummer {
      var k := r.value;
      assert k == i;
    }
  }

  /** With no modules anywhere, no module is currently enrolled. */
  lemma AktuellBelegteModuleLeer(sems: seq<SemesterV>)
    requires forall i :: 0 <= i < |sems| ==> sems[i].modulListe == []
    ensures AktuellBelegteModule(sems) == []
  {
    AktuellesSemesterSpec(sems);
  }

  /** The search takes the first semester with the current number, not the first
      non-empty one: an earlier empty semester with the same number hides the modules. */
  lemma DoppelteNummerVerdecktModule(m: ModulV)
    ensures AktuellesSemester([SemesterV(3, []), SemesterV(3, [m])]) == 3
    ensures AktuellBelegteModule([SemesterV(3, []), SemesterV(3, [m])]) == []
  {
    var sems := [SemesterV(3, []), SemesterV(3, [m])];
    assert sems[..0] == [];
    NummernSnoc(sems, 0);
    NummernSnoc(sems, 1);
    assert sems[..2] == sems;
    FindSemesterAt(sems, 3, 0);
  }

  // ---------------------------------------------------------------------
  // Upcoming appointments.

  /** A dashboard entry: a label and a date. */
  type Eintrag = (string, int)

  /** "<appointment title> (<module title>)" */
  function Label(t: Termin, modulTitel: string): string
  {
    t.titel + " (" + modulTitel + ")"
  }

  /** A label is the appointment title, then " (", the module title and ")". */
  lemma LabelAufbau(t: Termin, modulTitel: string)
    ensures var s := Label(t, modulTitel);
      |s| == |t.titel| + |modulTitel| + 3 &&
      s[..|t.titel|] == t.titel && s[|t.titel|..|t.titel| + 2] == " (" &&
      s[|t.titel| + 2..|s| - 1] == modulTitel && s[|s| - 1] == ')'
  {
  }

  /** Entries for the appointments of one module dated on or after today, in order. */
  function TermineAb(ts: seq<Termin>, modulTitel: string, today: int): seq<Eintrag>
  {
    if ts == [] then []
    else
      var t := ts[|ts| - 1];
      TermineAb(ts[..|ts| - 1], modulTitel, today) + if t.datum >= today then [(Label(t, modulTitel), t.datum)] else []
  }

  /** Entries for all appointments of a list of modules dated on or after today, in order. */
  function Anstehend(ms: seq<ModulV>, today: int): seq<Eintrag>
  {
    if ms == [] then []
    else
      var m := ms[|ms| - 1];
      Anstehend(ms[..|ms| - 1], today) + TermineAb(m.termine, m.titel, today)
  }

  lemma TermineAbSnoc(ts: seq<Termin>, t: Termin, modulTitel: string, today: int)
    ensures TermineAb(ts + [t], modulTitel, today) ==
      TermineAb(ts, modulTitel, today) + if t.datum >= today then [(Label(t, modulTitel), t.datum)] else []
  {
    assert (ts + [t])[..|ts|] == ts;
  }

  lemma AnstehendSnoc(ms: seq<ModulV>, m: ModulV, today: int)
    ensures Anstehend(ms + [m], today) == Anstehend(ms, today) + TermineAb(m.termine, m.titel, today)
  {
    assert (ms + [m])[..|ms|] == ms;
  }

  lemma {:induction false} TermineAbMember(ts: seq<Termin>, modulTitel: string, today: int, e: Eintrag)
    ensures e in TermineAb(ts, modulTitel, today) <==>
      exists k :: 0 <= k < |ts| && ts[k].datum >= today && e == (Label(ts[k], modulTitel), ts[k].datum)
  {
    if ts != [] {
      var init := ts[..|ts| - 1];
      TermineAbMember(init, modulTitel, today, e);
      if e in TermineAb(init, modulTitel, today) {
        var k :| 0 <= k < |init| && init[k].datum >= today && e == (Label(init[k], modulTitel), init[k].datum);
        assert ts[k] == init[k];
      }
      if k :| 0 <= k < |ts| && ts[k].datum >= today && e == (Label(ts[k], modulTitel), ts[k].datum) {
        if k < |init| {
          assert init[k] == ts[k];
        }
      }
    }
  }

  /** An entry is upcoming exactly when it is the entry of some appointment of some
      module dated on or after today. */
  lemma {:induction false} AnstehendMember(ms: seq<ModulV>, today: int, e: Eintrag)
    ensures e in Anstehend(ms, today) <==>
      exists i, k :: 0 <= i < |ms| && 0 <= k < |ms[i].termine| && ms[i].termine[k].datum >= today &&
        e == (Label(ms[i].termine[k], ms[i].titel), ms[i].termine[k].datum)
  {
    if ms != [] {
      var init, m := ms[..|ms| - 1], ms[|ms| - 1];
      AnstehendMember(init, today, e);
      TermineAbMember(m.termine, m.titel, today, e);
      assert Anstehend(ms, today) == Anstehend(init, today) + TermineAb(m.termine, m.titel, today);
      assert e in Anstehend(ms, today) <==> e in Anstehend(init, today) || e in TermineAb(m.termine, m.titel, today);
      if e in Anstehend(init, today) {
        var i, k :| 0 <= i < |init| && 0 <= k < |init[i].termine| && init[i].termine[k].datum >= today &&
          e == (Label(init[i].termine[k], init[i].titel), init[i].termine[k].datum);
        assert ms[i] == init[i];
      }
      if e in TermineAb(m.termine, m.titel, today) {
        var k :| 0 <= k < |m.termine| && m.termine[k].datum >= today && e == (Label(m.termine[k], m.titel), m.termine[k].datum);
        assert ms[|ms| - 1] == m;
      }
      if i, k :| (0 <= i < |ms| && 0 <= k < |ms[i].termine| && ms[i].termine[k].datum >= today &&
          e == (Label(ms[i].termine[k], ms[i].titel), ms[i].termine[k].datum)) {
        if i < |init| {
          assert init[i] == ms[i];
        }
      }
    }
  }

  // ---------------------------------------------------------------------
  // Ordering by date (a stable insertion sort).

  predicate SortedByDate(s: seq<Eintrag>)
  {
    forall i, j :: 0 <= i < j < |s| ==> s[i].1 <= s[j].1
  }

  /** Every entry of r is dated no earlier than lo when r holds the entries of s and x and all of them are. */
  lemma BoundedBelow(lo: int, x: Eintrag, s: seq<Eintrag>, r: seq<Eintrag>)
    requires lo <= x.1 && forall j :: 0 <= j < |s| ==> lo <= s[j].1
    requires multiset(r) == multiset(s) + multiset{x}
    ensures forall j :: 0 <= j < |r| ==> lo <= r[j].1
  {
    forall j | 0 <= j < |r| ensures lo <= r[j].1 {
      assert r[j] in multiset(r);
      if r[j] != x {
        assert r[j] in multiset(s);
      }
    }
  }

  /** An entry no later than every entry of a sorted list can go in front of it. */
  lemma SortedCons(a: Eintrag, t: seq<Eintrag>)
    requires SortedByDate(t) && forall j :: 0 <= j < |t| ==> a.1 <= t[j].1
    ensures SortedByDate([a] + t)
  {
    var r := [a] + t;
    forall i, j | 0 <= i < j < |r| ensures r[i].1 <= r[j].1 {
      assert r[j] == t[j - 1];
      if i > 0 {
        assert r[i] == t[i - 1];
      }
    }
  }

  /** Inserts x before the first entry that is not earlier than it. */
  function InsertByDate(x: Eintrag, s: seq<Eintrag>): (r: seq<Eintrag>)
    requires SortedByDate(s)
    ensures SortedByDate(r)
    ensures multiset(r) == multiset(s) + multiset{x}
  {
    if s == [] || x.1 <= s[0].1 then
      SortedCons(x, s);
      [x] + s
    else
      var rest := InsertByDate(x, s[1..]);
      assert s == [s[0]] + s[1..];
      BoundedBelow(s[0].1, x, s[1..], rest);
      SortedCons(s[0], rest);
      [s[0]] + rest
  }

  /** The entries ordered by ascending date; entries of equal date keep their order. */
  function SortByDate(s: seq<Eintrag>): (r: seq<Eintrag>)
    ensures SortedByDate(r)
    ensures multiset(r) == multiset(s)
  {
    if s == [] then []
    else
      assert s == [s[0]] + s[1..];
      InsertByDate(s[0], SortByDate(s[1..]))
  }

  /** Sorting a list that is already in date order leaves it as it is; in
      particular sorting twice is sorting once. */
  lemma {:induction false} SortByDateSorted(s: seq<Eintrag>)
    requires SortedByDate(s)
    ensures SortByDate(s) == s
  {
    if s != [] {
      SortByDateSorted(s[1..]);
      assert s == [s[0]] + s[1..];
    }
  }

  lemma SortByDateIdempotent(s: seq<Eintrag>)
    ensures SortByDate(SortByDate(s)) == SortByDate(s)
  {
    SortByDateSorted(SortByDate(s));
  }

  /** The entries dated d, in their order. */
  function AmDatum(s: seq<Eintrag>, d: int): seq<Eintrag>
  {
    if s == [] then [] else (if s[0].1 == d then [s[0]] else []) + AmDatum(s[1..], d)
  }

  lemma AmDatumCons(x: Eintrag, s: seq<Eintrag>, d: int)
    ensures AmDatum([x] + s, d) == (if x.1 == d then [x] else []) + AmDatum(s, d)
  {
    assert ([x] + s)[1..] == s;
  }

  /** Inserting x puts it ahead of the entries of its own date and leaves other dates alone. */
  lemma {:induction false} InsertByDateStable(x: Eintrag, s: seq<Eintrag>, d: int)
    requires SortedByDate(s)
    ensures AmDatum(InsertByDate(x, s), d) == (if x.1 == d then [x] else []) + AmDatum(s, d)
  {
    if s == [] || x.1 <= s[0].1 {
      AmDatumCons(x, s, d);
    } else {
      var rest := InsertByDate(x, s[1..]);
      assert InsertByDate(x, s) == [s[0]] + rest;
      InsertByDateStable(x, s[1..], d);
      AmDatumCons(s[0], rest, d);
      assert AmDatum(s, d) == (if s[0].1 == d then [s[0]] else []) + AmDatum(s[1..], d);
      if x.1 == d {
        // s[0] is strictly earlier than x, so it is not dated d
        assert AmDatum(s, d) == AmDatum(s[1..], d);
      } else {
        assert AmDatum(rest, d) == AmDatum(s[1..], d);
      }
    }
  }

  /** The sort is stable: for every date, the entries of that date keep their order. */
  lemma {:induction false} SortByDateStable(s: seq<Eintrag>, d: int)
    ensures AmDatum(SortByDate(s), d) == AmDatum(s, d)
  {
    if s != [] {
      SortByDateStable(s[1..], d);
      InsertByDateStable(s[0], SortByDate(s[1..]), d);
    }
  }

  /** Upcoming appointments of a programme, ordered by date. */
  function KommendeTermine(sems: seq<SemesterV>, today: int): (r: seq<Eintrag>)
    ensures SortedByDate(r)
    ensures multiset(r) == multiset(Anstehend(Flatten(sems), today))
  {
    SortByDate(Anstehend(Flatten(sems), today))
  }

  /** Every returned entry is dated on or after today, every appointment so dated shows
      up, and the result is sorted by date and a permutation of the upcoming entries in
      which entries of the same date keep the order of the walk. */
  lemma KommendeTermineSpec(sems: seq<SemesterV>, today: int)
    ensures SortedByDate(KommendeTermine(sems, today))
    ensures multiset(KommendeTermine(sems, today)) == multiset(Anstehend(Flatten(sems), today))
    ensures forall e :: e in KommendeTermine(sems, today) ==> e.1 >= today
    ensures forall d :: AmDatum(KommendeTermine(sems, today), d) == AmDatum(Anstehend(Flatten(sems), today), d)
    ensures forall i, j, k :: (0 <= i < |sems| && 0 <= j < |sems[i].modulListe| &&
      0 <= k < |sems[i].modulListe[j].termine| && sems[i].modulListe[j].termine[k].datum >= today) ==>
        (Label(sems[i].modulListe[j].termine[k], sems[i].modulListe[j].titel), sems[i].modulListe[j].termine[k].datum)
          in KommendeTermine(sems, today)
  {
    var ms := Flatten(sems);
    var r := KommendeTermine(sems, today);
    forall d ensures AmDatum(r, d) == AmDatum(Anstehend(ms, today), d) {
      SortByDateStable(Anstehend(ms, today), d);
    }
    forall e | e in r ensures e.1 >= today {
      assert e in multiset(r);
      AnstehendMember(ms, today, e);
    }
    forall i, j, k | 0 <= i < |sems| && 0 <= j < |sems[i].modulListe| &&
      0 <= k < |sems[i].modulListe[j].termine| && sems[i].modulListe[j].termine[k].datum >= today
      ensures (Label(sems[i].modulListe[j].termine[k], sems[i].modulListe[j].titel), sems[i].modulListe[j].termine[k].datum) in r
    {
      var m := sems[i].modulListe[j];
      var e := (Label(m.termine[k], m.titel), m.termine[k].datum);
      FlattenMember(sems, m);
      var p :| 0 <= p < |ms| && ms[p] == m;
      AnstehendMember(ms, today, e);
      assert e in multiset(Anstehend(ms, today));
    }
  }
}
