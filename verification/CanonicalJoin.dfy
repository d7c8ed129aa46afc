/** What an accepted trace says about its source. */
module CanonicalJoin {
  // Each parent's selected subtests are its lambda list, one to one and in order, and equal canonical
  // traces come from equal lambda lists.

  import opened Wrappers
  import opened CanonicalEvents
  import opened CanonicalInvariance

  lemma {:induction false} SeenMonotone(sel: Selectors, es: seq<Event>, base: string, m: nat, n: nat)
    requires m <= n <= |es|
    ensures Seen(sel, es, base, m) <= Seen(sel, es, base, n)
    ensures m < n && Selected(sel, es[m]) && es[m].id.base == base ==> Seen(sel, es, base, m) < Seen(sel, es, base, n)
  {
    if m < n {
      SeenMonotone(sel, es, base, m, n - 1);
    }
  }

  /** The selected subtest of `base` that comes after exactly `k` others. */
  predicate NthSubtest(sel: Selectors, es: seq<Event>, base: string, k: nat, i: nat) {
    i < |es| && Selected(sel, es[i]) && es[i].id.base == base && Seen(sel, es, base, i) == k
  }

  lemma {:induction false} FindNth(sel: Selectors, es: seq<Event>, base: string, k: nat, n: nat) returns (i: nat)
    requires n <= |es| && k < Seen(sel, es, base, n)
    ensures i < n && NthSubtest(sel, es, base, k, i)
  {
    if k < Seen(sel, es, base, n - 1) {
      i := FindNth(sel, es, base, k, n - 1);
    } else {
      i := n - 1;
    }
  }

  lemma NthIsUnique(sel: Selectors, es: seq<Event>, base: string, k: nat, i: nat, j: nat)
    requires NthSubtest(sel, es, base, k, i) && NthSubtest(sel, es, base, k, j)
    ensures i == j
  {
    if i < j {
      SeenMonotone(sel, es, base, i, j);
    } else if j < i {
      SeenMonotone(sel, es, base, j, i);
    }
  }

  function SelectorsIn(s: Source): Selectors {
    SelectorsOf(Channels(s))
  }

  /** Canonicalisation rewrites labels only: length, parents, outcomes and case indices are kept. */
  lemma CanonicalKeepsShape(s: Source, es: seq<Event>)
    requires Accepted(s, es)
    ensures var r := Canonical(s, es).value;
            && |r| == |es|
            && forall i :: 0 <= i < |es| ==>
                 r[i].outcome == es[i].outcome && r[i].caseIndex == es[i].caseIndex && r[i].id.base == es[i].id.base
  {
    ClockKeepsShape(s, JoinedEvents(SelectorsIn(s), es));
  }

  lemma ClockKeepsShape(s: Source, es: seq<Event>)
    requires ClockAccepted(s, es)
    ensures var r := ClockResult(s, es);
            && |r| == |es|
            && forall i :: 0 <= i < |es| ==>
                 r[i].outcome == es[i].outcome && r[i].caseIndex == es[i].caseIndex && r[i].id.base == es[i].id.base
  {
    var i := FirstClock(es);
    assert i + 2 < |es| ==> (OnlyClocks(es, i) ==> IsClock(es[i]) && IsClock(es[i + 1]));
  }

  /** A selected event's canonical form is its joined form: the clock rewrite does not touch it. */
  lemma CanonicalOfSelected(s: Source, es: seq<Event>, i: nat)
    requires Accepted(s, es) && i < |es| && Selected(SelectorsIn(s), es[i])
    ensures |Canonical(s, es).value| == |es|
    ensures Canonical(s, es).value[i] == JoinedEvent(SelectorsIn(s), es, i)
  {
    SelectedIsNotClock(s, es[i]);
    var p := JoinedEvents(SelectorsIn(s), es);
    var j := FirstClock(p);
    assert j + 2 < |p| ==> (OnlyClocks(p, j) ==> IsClock(p[j]) && IsClock(p[j + 1]));
  }

  /** Acceptance means a perfect join: for every selector, each lambda of its list is observed by
      exactly one selected subtest of that parent, in list order, at the lambda's own line. */
  lemma SubtestsAreLambdas(s: Source, es: seq<Event>, base: string, k: nat)
    requires Accepted(s, es) && base in SelectorsIn(s)
    ensures var c := SelectorsIn(s)[base];
            k < |c.choices| <==> exists i: nat :: NthSubtest(SelectorsIn(s), es, base, k, i)
    ensures var c := SelectorsIn(s)[base];
            forall i: nat, j: nat :: NthSubtest(SelectorsIn(s), es, base, k, i) && NthSubtest(SelectorsIn(s), es, base, k, j) ==>
              i == j && k < |c.choices| && LineLabel(es[i].id.fields, c.arg) == Some(c.choices[k].line)
  {
    var sel := SelectorsIn(s);
    var c := sel[base];
    if k < |c.choices| {
      var i := FindNth(sel, es, base, k, |es|);
    }
    forall i: nat, j: nat | NthSubtest(sel, es, base, k, i) && NthSubtest(sel, es, base, k, j)
      ensures i == j && k < |c.choices| && LineLabel(es[i].id.fields, c.arg) == Some(c.choices[k].line)
    {
      NthIsUnique(sel, es, base, k, i, j);
      assert Proven(sel, es, i);
    }
  }

  /** A recorded trace: no label is canonical yet. */
  predicate Raw(es: seq<Event>) {
    forall i :: 0 <= i < |es| ==> forall j :: 0 <= j < |es[i].id.fields| ==> !es[i].id.fields[j].value.Selector?
  }

  lemma {:induction false} LineLabelAt(fs: seq<Field>, arg: string) returns (j: nat)
    requires LineLabel(fs, arg).Some?
    ensures j < |fs| && fs[j].name == arg && fs[j].value.Num?
  {
    if fs[0].name == arg && fs[0].value.Num? {
      j := 0;
    } else {
      j := LineLabelAt(fs[1..], arg);
      j := j + 1;
    }
  }

  lemma UnselectedStaysRaw(s: Source, es: seq<Event>, i: nat, j: nat)
    requires Accepted(s, es) && Raw(es) && i < |es| && !Selected(SelectorsIn(s), es[i])
    requires i < |Canonical(s, es).value| && j < |Canonical(s, es).value[i].id.fields|
    ensures !Canonical(s, es).value[i].id.fields[j].value.Selector?
  {
    var p := JoinedEvents(SelectorsIn(s), es);
    var r := Canonical(s, es).value;
    assert p[i] == es[i];
    assert r[i] == p[i] || r[i] == Stamp(p[i], "deadline") || r[i] == Stamp(p[i], "deadline+1s");
  }

  /** A field of a canonical raw trace that names a selector was put there by the join. */
  lemma SelectorFieldIsJoined(s: Source, es: seq<Event>, i: nat, j: nat)
    requires Accepted(s, es) && Raw(es) && i < |es|
    requires var r := Canonical(s, es).value; i < |r| && j < |r[i].id.fields| && r[i].id.fields[j].value.Selector?
    ensures Selected(SelectorsIn(s), es[i])
    ensures var sel := SelectorsIn(s);
            var base := es[i].id.base;
            var k := Seen(sel, es, base, i);
            && k < |sel[base].choices|
            && Canonical(s, es).value[i].id.fields[j].value == Selector(base, sel[base].choices[k].dump, k)
  {
    if Selected(SelectorsIn(s), es[i]) {
      CanonicalOfSelected(s, es, i);
      assert Proven(SelectorsIn(s), es, i);
    } else {
      UnselectedStaysRaw(s, es, i, j);
    }
  }

  /** Reflection: if two accepted raw traces have the same canonical form, then every subtest
      selected in the one selects, in the other, a lambda of the same position and syntax. */
  lemma {:induction false} CanonicalReflects(a: Source, b: Source, es: seq<Event>, fs: seq<Event>, i: nat)
    requires Accepted(a, es) && Accepted(b, fs) && Raw(es) && Raw(fs)
    requires Canonical(a, es) == Canonical(b, fs) && i < |es|
    requires Selected(SelectorsIn(a), es[i])
    ensures |fs| == |es| && Selected(SelectorsIn(b), fs[i]) && fs[i].id.base == es[i].id.base
    ensures var x, y, base := SelectorsIn(a), SelectorsIn(b), es[i].id.base;
            var k := Seen(x, es, base, i);
            && Seen(y, fs, base, i) == k
            && k < |x[base].choices| && k < |y[base].choices|
            && x[base].choices[k].dump == y[base].choices[k].dump
  {
    var x := SelectorsIn(a);
    CanonicalKeepsShape(a, es);
    CanonicalKeepsShape(b, fs);
    CanonicalOfSelected(a, es, i);
    assert Proven(x, es, i);
    var j := LineLabelAt(es[i].id.fields, x[es[i].id.base].arg);
    SelectorFieldIsJoined(a, es, i, j);
    SelectorFieldIsJoined(b, fs, i, j);
  }

  lemma ChoiceReflected(a: Source, b: Source, es: seq<Event>, fs: seq<Event>, base: string, k: nat)
    requires Accepted(a, es) && Accepted(b, fs) && Raw(es) && Raw(fs)
    requires Canonical(a, es) == Canonical(b, fs)
    requires base in SelectorsIn(a) && base in SelectorsIn(b)
    requires k < |SelectorsIn(a)[base].choices|
    ensures k < |SelectorsIn(b)[base].choices|
    ensures SelectorsIn(a)[base].choices[k].dump == SelectorsIn(b)[base].choices[k].dump
  {
    var i := FindNth(SelectorsIn(a), es, base, k, |es|);
    CanonicalReflects(a, b, es, fs, i);
  }

  /** So equal canonical traces come from equal lambda lists, parent by parent. */
  lemma CanonicalReflectsChoices(a: Source, b: Source, es: seq<Event>, fs: seq<Event>, base: string)
    requires Accepted(a, es) && Accepted(b, fs) && Raw(es) && Raw(fs)
    requires Canonical(a, es) == Canonical(b, fs)
    requires base in SelectorsIn(a) && base in SelectorsIn(b)
    ensures SameChoices(SelectorsIn(a)[base].choices, SelectorsIn(b)[base].choices)
  {
    var x, y := SelectorsIn(a)[base].choices, SelectorsIn(b)[base].choices;
    if |x| > |y| {
      ChoiceReflected(a, b, es, fs, base, |y|);
    } else if |y| > |x| {
      ChoiceReflected(b, a, fs, es, base, |x|);
    }
    forall k | 0 <= k < |x|
      ensures x[k].dump == y[k].dump
    {
      ChoiceReflected(a, b, es, fs, base, k);
    }
  }
}
