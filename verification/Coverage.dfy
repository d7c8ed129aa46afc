/** Accounting for the tests of one run. */
module Coverage {
  // The result callbacks, and the counter that explains every discovered test that was not started.

  import opened Wrappers
  import opened Suites

  datatype Outcome = Success | Failure | Error | Skip | ExpectedFailure | UnexpectedSuccess | SubTest(inner: string)

  datatype CaseRecord = CaseRecord(id: string, seconds: Option<real>, completed: bool)

  datatype Event = Event(id: string, outcome: Outcome, caseIndex: Option<nat>)

  datatype Unstarted = Unstarted(id: string, explained: bool)

  datatype Report = Report(complete: bool, unexpected: seq<string>, notStarted: seq<Unstarted>)

  /** The result object that observes a run.  `active` is the index of the record that
      `_active` aliases. */
  class TimedResult {
    var cases: seq<CaseRecord>
    var events: seq<Event>
    var testsRun: nat
    var active: Option<nat>

    /** Every start was counted, only the last case can be open, and every event that names a
        case names one that exists. */
    ghost predicate Valid()
      reads this
    {
      && testsRun == |cases|
      && (active.Some? ==> active.value == |cases| - 1 && !cases[active.value].completed)
      && (forall e <- events :: e.caseIndex.Some? ==> e.caseIndex.value < |cases|)
    }

    constructor ()
      ensures Valid() && cases == [] && events == [] && active.None?
    {
      cases, events, testsRun, active := [], [], 0, None;
    }

    method StartTest(id: string)
      requires Valid()
      modifies this
      ensures Valid()
      ensures cases == old(cases) + [CaseRecord(id, None, false)] && active == Some(|old(cases)|)
      ensures events == old(events)
    {
      active := Some(|cases|);
      cases := cases + [CaseRecord(id, None, false)];
      testsRun := testsRun + 1;
    }

    /** Closing a test completes the record opened by the last start, and no other. */
    method StopTest(elapsed: real)
      requires Valid() && active.Some?
      modifies this
      ensures Valid() && active.None? && events == old(events) && |cases| == |old(cases)|
      ensures cases[..|cases| - 1] == old(cases)[..|cases| - 1]
      ensures cases[|cases| - 1] == CaseRecord(old(cases)[|cases| - 1].id, Some(elapsed), true)
    {
      var i := active.value;
      cases := cases[i := cases[i].(seconds := Some(elapsed), completed := true)];
      active := None;
    }

    /** An event names the open case, or none when it comes from a class or module fixture. */
    method Add(id: string, outcome: Outcome)
      requires Valid()
      modifies this`events
      ensures Valid()
      ensures events == old(events) + [Event(id, outcome, if active.Some? then Some(|cases| - 1) else None)]
    {
      events := events + [Event(id, outcome, if active.Some? then Some(|cases| - 1) else None)];
    }
  }

  // ---------------------------------------------------------------- ids and counters

  /** The names of some things, in order. */
  function NamesOf<T>(xs: seq<T>, name: T -> string): (r: seq<string>)
    ensures |r| == |xs| && forall i :: 0 <= i < |xs| ==> r[i] == name(xs[i])
  {
    seq(|xs|, i requires 0 <= i < |xs| => name(xs[i]))
  }

  function Ids(ts: seq<Test>): seq<string> {
    NamesOf(ts, (t: Test) => t.id)
  }

  function CaseIds(cs: seq<CaseRecord>): seq<string> {
    NamesOf(cs, (c: CaseRecord) => c.id)
  }

  function UnstartedIds(us: seq<Unstarted>): seq<string> {
    NamesOf(us, (u: Unstarted) => u.id)
  }

  predicate NoRepeats(names: seq<string>) {
    forall i, j :: 0 <= i < j < |names| ==> names[i] != names[j]
  }

  type Counter = map<string, int>

  function Get(c: Counter, id: string): int {
    if id in c then c[id] else 0
  }

  /** Splitting off the last element of a list of ids. */
  lemma LastId(ids: seq<string>, n: nat)
    requires n < |ids|
    ensures multiset(ids[..n + 1]) == multiset(ids[..n]) + multiset{ids[n]}
  {
    assert ids[..n + 1] == ids[..n] + [ids[n]];
  }

  // ---------------------------------------------------------------- the specification

  function Explained(t: Test, events: seq<Event>): bool {
    exists e <- events :: FixtureSkip(t, e)
  }

  predicate FixtureSkip(t: Test, e: Event) {
    && e.outcome.Skip? && e.caseIndex.None?
    && (e.id == "setUpClass (" + t.mod + "." + t.cls + ")" || e.id == "setUpModule (" + t.mod + ")")
  }

  function Mark(t: Test, events: seq<Event>): (u: Unstarted)
    ensures u.id == t.id
  {
    Unstarted(t.id, Explained(t, events))
  }

  /** The first `budget[id]` tests of each id, in order, each marked as explained or not. */
  function Pick(ts: seq<Test>, budget: multiset<string>, events: seq<Event>): seq<Unstarted> {
    if ts == [] then []
    else if budget[ts[0].id] > 0
      then [Mark(ts[0], events)] + Pick(ts[1..], budget - multiset{ts[0].id}, events)
    else Pick(ts[1..], budget, events)
  }

  lemma IdsHead(ts: seq<Test>)
    requires ts != []
    ensures multiset(Ids(ts)) == multiset{ts[0].id} + multiset(Ids(ts[1..]))
  {
    assert Ids(ts) == [ts[0].id] + Ids(ts[1..]);
  }

  lemma UnstartedHead(u: Unstarted, us: seq<Unstarted>)
    ensures multiset(UnstartedIds([u] + us)) == multiset{u.id} + multiset(UnstartedIds(us))
  {
    assert UnstartedIds([u] + us) == [u.id] + UnstartedIds(us);
  }

  /** The budget is spent exactly when the tests can pay for it. */
  lemma {:induction false} PickSpendsBudget(ts: seq<Test>, budget: multiset<string>, events: seq<Event>)
    requires budget <= multiset(Ids(ts))
    ensures multiset(UnstartedIds(Pick(ts, budget, events))) == budget
  {
    if ts != [] {
      IdsHead(ts);
      var less := budget - multiset{ts[0].id};
      PickSpendsBudget(ts[1..], less, events);
      if budget[ts[0].id] > 0 {
        UnstartedHead(Mark(ts[0], events), Pick(ts[1..], less, events));
      } else {
        assert less == budget;
      }
    }
  }

  /** Discovered minus started, per id; Dafny's multiset difference never goes below zero. */
  function Missing(discovered: seq<Test>, cases: seq<CaseRecord>): multiset<string> {
    multiset(Ids(discovered)) - multiset(CaseIds(cases))
  }

  predicate Unexpected(discovered: seq<Test>, cases: seq<CaseRecord>, id: string) {
    multiset(CaseIds(cases))[id] > multiset(Ids(discovered))[id]
  }

  ghost predicate IsReport(discovered: seq<Test>, cases: seq<CaseRecord>, events: seq<Event>, testsRun: nat, r: Report) {
    && r.notStarted == Pick(discovered, Missing(discovered, cases), events)
    && (forall id :: id in r.unexpected <==> Unexpected(discovered, cases, id)) && NoRepeats(r.unexpected)
    && (r.complete <==>
          && (forall id :: !Unexpected(discovered, cases, id))
          && (forall c <- cases :: c.completed)
          && (forall u <- r.notStarted :: u.explained)
          && testsRun == |cases|)
  }

  // ---------------------------------------------------------------- the two-pass algorithm

  method Count(ids: seq<string>) returns (c: Counter, keys: seq<string>)
    ensures forall id :: Get(c, id) == multiset(ids)[id]
    ensures (forall id :: id in keys <==> id in ids) && NoRepeats(keys)
  {
    c, keys := map[], [];
    for i := 0 to |ids|
      invariant forall id :: Get(c, id) == multiset(ids[..i])[id]
      invariant (forall id :: id in keys <==> id in ids[..i]) && NoRepeats(keys)
    {
      LastId(ids, i);
      if ids[i] !in keys {
        keys := keys + [ids[i]];
      }
      c := c[ids[i] := Get(c, ids[i]) + 1];
    }
    assert ids[..|ids|] == ids;
  }

  /** The counter and its keys, after some ids were taken off. */
  ghost predicate Discounted(c: Counter, keys: seq<string>, start: Counter, names: seq<string>, ids: seq<string>) {
    && NoRepeats(keys)
    && (forall id :: Get(c, id) + multiset(ids)[id] == Get(start, id))
    && (forall id :: id in keys <==> id in names || id in ids)
  }

  method TakeOff(c: Counter, keys: seq<string>, id: string, ghost start: Counter, ghost names: seq<string>, ghost ids: seq<string>)
    returns (c': Counter, keys': seq<string>)
    requires Discounted(c, keys, start, names, ids)
    ensures Discounted(c', keys', start, names, ids + [id])
  {
    keys' := if id in keys then keys else keys + [id];
    c' := c[id := Get(c, id) - 1];
  }

  /** First pass: every started case is taken off the counter. */
  method Discount(start: Counter, names: seq<string>, cases: seq<CaseRecord>) returns (c: Counter, keys: seq<string>)
    requires NoRepeats(names)
    ensures Discounted(c, keys, start, names, CaseIds(cases))
  {
    c, keys := start, names;
    ghost var ids := CaseIds(cases);
    for i := 0 to |cases|
      invariant Discounted(c, keys, start, names, ids[..i])
    {
      c, keys := TakeOff(c, keys, cases[i].id, start, names, ids[..i]);
      assert ids[..i] + [ids[i]] == ids[..i + 1];
    }
    assert ids[..|cases|] == ids;
  }

  method Negatives(c: Counter, keys: seq<string>) returns (names: seq<string>)
    requires NoRepeats(keys)
    ensures (forall id :: id in names <==> id in keys && Get(c, id) < 0) && NoRepeats(names)
  {
    names := [];
    for i := 0 to |keys|
      invariant (forall id :: id in names <==> id in keys[..i] && Get(c, id) < 0) && NoRepeats(names)
    {
      if Get(c, keys[i]) < 0 {
        names := names + [keys[i]];
      }
    }
  }

  function Positive(n: int): nat {
    if n > 0 then n else 0
  }

  lemma PickStep(done: seq<Unstarted>, ts: seq<Test>, j: nat, budget: multiset<string>, events: seq<Event>)
    requires j < |ts|
    ensures done + Pick(ts[j..], budget, events) ==
            if budget[ts[j].id] > 0
            then (done + [Mark(ts[j], events)]) + Pick(ts[j + 1..], budget - multiset{ts[j].id}, events)
            else done + Pick(ts[j + 1..], budget, events)
  {
    assert ts[j..][0] == ts[j] && ts[j..][1..] == ts[j + 1..];
  }

  lemma OwesLess(c: Counter, left: multiset<string>, id: string)
    requires (forall x :: left[x] == Positive(Get(c, x))) && Get(c, id) > 0
    ensures forall x :: (left - multiset{id})[x] == Positive(Get(c[id := Get(c, id) - 1], x))
  {
  }

  /** Second pass: tests still owed are reported and taken off the counter. */
  method Owed(start: Counter, discovered: seq<Test>, events: seq<Event>, ghost budget: multiset<string>)
    returns (unstarted: seq<Unstarted>)
    requires forall id :: budget[id] == Positive(Get(start, id))
    ensures unstarted == Pick(discovered, budget, events)
  {
    var c := start;
    unstarted := [];
    ghost var left := budget;
    for j := 0 to |discovered|
      invariant forall id :: left[id] == Positive(Get(c, id))
      invariant unstarted + Pick(discovered[j..], left, events) == Pick(discovered, budget, events)
    {
      var t := discovered[j];
      PickStep(unstarted, discovered, j, left, events);
      if Get(c, t.id) > 0 {
        OwesLess(c, left, t.id);
        c := c[t.id := Get(c, t.id) - 1];
        unstarted := unstarted + [Mark(t, events)];
        left := left - multiset{t.id};
      }
    }
  }

  /** `coverage`: one counter, decremented first by the started cases and then by the tests
      reported as not started. */
  method Account(discovered: seq<Test>, cases: seq<CaseRecord>, events: seq<Event>, testsRun: nat)
    returns (r: Report)
    ensures IsReport(discovered, cases, events, testsRun, r)
  {
    var counter, names := Count(Ids(discovered));
    var remaining, keys := Discount(counter, names, cases);
    var unexpected := Negatives(remaining, keys);
    var unstarted := Owed(remaining, discovered, events, Missing(discovered, cases));
    var complete := unexpected == [] && (forall c <- cases :: c.completed)
                    && (forall u <- unstarted :: u.explained) && testsRun == |cases|;
    r := Report(complete, unexpected, unstarted);
    forall id
      ensures id in unexpected <==> Unexpected(discovered, cases, id)
    {
      assert id in CaseIds(cases) <==> multiset(CaseIds(cases))[id] > 0;
    }
    if unexpected != [] {
      assert unexpected[0] in unexpected;
    }
  }

  // ---------------------------------------------------------------- what a report means

  /** `notStarted` is discovered minus cases for all inputs, and a complete report conserves
      every discovered id: started once or explained once, never both. */
  lemma ReportConserves(discovered: seq<Test>, cases: seq<CaseRecord>, events: seq<Event>, testsRun: nat, r: Report)
    requires IsReport(discovered, cases, events, testsRun, r)
    ensures multiset(UnstartedIds(r.notStarted)) == Missing(discovered, cases)
    ensures r.unexpected == [] <==>
            multiset(CaseIds(cases)) + multiset(UnstartedIds(r.notStarted)) == multiset(Ids(discovered))
    ensures r.complete ==> r.unexpected == [] && |cases| + |r.notStarted| == |discovered| && testsRun == |cases|
  {
    PickSpendsBudget(discovered, Missing(discovered, cases), events);
    var D, C := multiset(Ids(discovered)), multiset(CaseIds(cases));
    if r.unexpected == [] {
      forall id ensures C[id] <= D[id] {
        assert !Unexpected(discovered, cases, id);
      }
      assert C + (D - C) == D;
      assert |C| == |cases| && |D| == |discovered| && |multiset(UnstartedIds(r.notStarted))| == |r.notStarted|;
    } else {
      var id := r.unexpected[0];
      assert id in r.unexpected && Unexpected(discovered, cases, id);
      assert (C + (D - C))[id] > D[id];
    }
  }
}
