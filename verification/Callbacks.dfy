/** What the callbacks of one run leave behind. */
module Callbacks {
  // They fill the result object; its report is complete in exactly the runs described here.

  import opened Wrappers
  import opened Suites
  import opened Coverage

  /** `startTest`, one of the reporting callbacks, `stopTest`. */
  datatype Callback = Started(id: string) | Reported(id: string, outcome: Outcome) | Stopped(elapsed: real)

  /** Whether a test is open before callback `n`. */
  predicate Open(cs: seq<Callback>, n: nat)
    requires n <= |cs|
  {
    n > 0 && !cs[n - 1].Stopped? && (cs[n - 1].Started? || Open(cs, n - 1))
  }

  /** The runner stops a test only after it started one. */
  predicate Legal(cs: seq<Callback>) {
    forall i :: 0 <= i < |cs| && cs[i].Stopped? ==> Open(cs, i)
  }

  // ---------------------------------------------------------------- the object

  datatype Seen = Seen(cases: seq<CaseRecord>, events: seq<Event>, testsRun: nat, open: bool)

  function Next(s: Seen, c: Callback): Seen {
    match c
    case Started(id) => s.(cases := s.cases + [CaseRecord(id, None, false)], testsRun := s.testsRun + 1, open := true)
    case Reported(id, outcome) =>
      s.(events := s.events + [Event(id, outcome, if s.open && s.cases != [] then Some(|s.cases| - 1) else None)])
    case Stopped(elapsed) =>
      if s.cases == [] then s
      else
        var last := |s.cases| - 1;
        s.(cases := s.cases[..last] + [CaseRecord(s.cases[last].id, Some(elapsed), true)], open := false)
  }

  function Observe(cs: seq<Callback>): Seen {
    if cs == [] then Seen([], [], 0, false) else Next(Observe(cs[..|cs| - 1]), cs[|cs| - 1])
  }

  ghost predicate Shows(r: TimedResult, s: Seen)
    reads r
  {
    && r.Valid() && r.cases == s.cases && r.events == s.events && r.testsRun == s.testsRun
    && (r.active.Some? <==> s.open)
  }

  lemma PrefixIsLegal(cs: seq<Callback>, n: nat)
    requires n <= |cs| && Legal(cs)
    ensures Legal(cs[..n])
    ensures forall i :: 0 <= i <= n ==> Open(cs[..n], i) == Open(cs, i)
  {
    forall i | 0 <= i <= n ensures Open(cs[..n], i) == Open(cs, i) {
      OpenOfPrefix(cs, n, i);
    }
  }

  lemma {:induction false} OpenOfPrefix(cs: seq<Callback>, n: nat, i: nat)
    requires i <= n <= |cs|
    ensures Open(cs[..n], i) == Open(cs, i)
  {
    if i > 0 {
      OpenOfPrefix(cs, n, i - 1);
    }
  }

  lemma {:induction false} ObserveOpen(cs: seq<Callback>)
    requires Legal(cs)
    ensures var s := Observe(cs);
            s.testsRun == |s.cases| && s.open == Open(cs, |cs|) && (s.open ==> s.cases != [])
  {
    if cs != [] {
      PrefixIsLegal(cs, |cs| - 1);
      ObserveOpen(cs[..|cs| - 1]);
    }
  }

  /** One callback of the runner. */
  method DeliverOne(r: TimedResult, c: Callback, ghost s: Seen)
    requires Shows(r, s) && (s.open ==> s.cases != []) && (c.Stopped? ==> s.open)
    modifies r
    ensures Shows(r, Next(s, c))
  {
    match c {
      case Started(id) => r.StartTest(id);
      case Reported(id, outcome) => r.Add(id, outcome);
      case Stopped(elapsed) => r.StopTest(elapsed);
    }
  }

  /** Delivering the callbacks to a fresh result object. */
  method Deliver(cs: seq<Callback>) returns (r: TimedResult)
    requires Legal(cs)
    ensures fresh(r) && Shows(r, Observe(cs))
  {
    r := new TimedResult();
    for k := 0 to |cs|
      invariant fresh(r) && Shows(r, Observe(cs[..k]))
    {
      PrefixIsLegal(cs, k);
      ObserveOpen(cs[..k]);
      assert cs[..k + 1][..k] == cs[..k];
      DeliverOne(r, cs[k], Observe(cs[..k]));
    }
    assert cs[..|cs|] == cs;
  }

  // ---------------------------------------------------------------- what the callbacks mean

  /** The ids of the started tests, in order. */
  function Starts(cs: seq<Callback>): seq<string> {
    if cs == [] then []
    else Starts(cs[..|cs| - 1]) + if cs[|cs| - 1].Started? then [cs[|cs| - 1].id] else []
  }

  /** Every start is one case, so the runner's own count of tests can never differ from the cases. */
  lemma {:induction false} StartsAreCases(cs: seq<Callback>)
    requires Legal(cs)
    ensures CaseIds(Observe(cs).cases) == Starts(cs)
    ensures Observe(cs).testsRun == |Observe(cs).cases|
  {
    ObserveOpen(cs);
    if cs != [] {
      PrefixIsLegal(cs, |cs| - 1);
      StartsAreCases(cs[..|cs| - 1]);
      NextCaseIds(Observe(cs[..|cs| - 1]), cs[|cs| - 1]);
    }
  }

  lemma NextCaseIds(s: Seen, c: Callback)
    ensures CaseIds(Next(s, c).cases) == CaseIds(s.cases) + if c.Started? then [c.id] else []
  {
  }

  /** No test was started while another was open. */
  predicate Uninterrupted(cs: seq<Callback>) {
    forall i :: 0 <= i < |cs| && cs[i].Started? ==> !Open(cs, i)
  }

  /** Every started test was stopped before the next one started. */
  predicate Closed(cs: seq<Callback>) {
    Uninterrupted(cs) && !Open(cs, |cs|)
  }

  predicate AllButLast(cases: seq<CaseRecord>) {
    forall k :: 0 <= k < |cases| - 1 ==> cases[k].completed
  }

  lemma UninterruptedNext(cs: seq<Callback>)
    requires cs != [] && Legal(cs)
    ensures Uninterrupted(cs) <==>
            Uninterrupted(cs[..|cs| - 1]) && (cs[|cs| - 1].Started? ==> !Open(cs[..|cs| - 1], |cs| - 1))
  {
    var n := |cs| - 1;
    PrefixIsLegal(cs, n);
    if Uninterrupted(cs) {
      assert forall i :: 0 <= i < n ==> cs[..n][i] == cs[i];
    }
    if Uninterrupted(cs[..n]) && (cs[n].Started? ==> !Open(cs[..n], n)) {
      forall i | 0 <= i < |cs| && cs[i].Started? ensures !Open(cs, i) {
        assert i < n ==> cs[..n][i] == cs[i];
      }
    }
  }

  /** All cases but the last are completed exactly without interruption, and the last exactly when no test
      is open. */
  predicate Tracks(cases: seq<CaseRecord>, uninterrupted: bool, open: bool) {
    && (AllButLast(cases) <==> uninterrupted)
    && (if cases == [] then !open else cases[|cases| - 1].completed <==> !open)
  }

  lemma TracksNext(s: Seen, c: Callback, uninterrupted: bool, open: bool)
    requires Tracks(s.cases, uninterrupted, open) && (c.Stopped? ==> open)
    ensures Tracks(Next(s, c).cases, uninterrupted && (c.Started? ==> !open), !c.Stopped? && (c.Started? || open))
  {
    LastCase(s, c);
  }

  lemma {:induction false} CompletedSoFar(cs: seq<Callback>)
    requires Legal(cs)
    ensures Tracks(Observe(cs).cases, Uninterrupted(cs), Open(cs, |cs|))
  {
    if cs != [] {
      var n := |cs| - 1;
      PrefixIsLegal(cs, n);
      CompletedSoFar(cs[..n]);
      UninterruptedNext(cs);
      TracksNext(Observe(cs[..n]), cs[n], Uninterrupted(cs[..n]), Open(cs[..n], n));
    }
  }

  lemma LastCase(s: Seen, c: Callback)
    requires c.Stopped? ==> s.cases != []
    ensures var t := Next(s, c);
            && (AllButLast(t.cases) <==>
                  AllButLast(s.cases) && (c.Started? && s.cases != [] ==> s.cases[|s.cases| - 1].completed))
            && (t.cases == [] <==> s.cases == [] && !c.Started?)
            && (t.cases != [] ==>
                  (t.cases[|t.cases| - 1].completed <==>
                     c.Stopped? || (c.Reported? && s.cases[|s.cases| - 1].completed)))
  {
    var t := Next(s, c);
    if c.Started? {
      assert forall k :: 0 <= k < |s.cases| ==> t.cases[k] == s.cases[k];
    } else if c.Stopped? {
      assert forall k :: 0 <= k < |s.cases| - 1 ==> t.cases[k] == s.cases[k];
    }
  }

  /** All cases are completed exactly when every test was stopped before the next one started. */
  lemma CompletedExactly(cs: seq<Callback>)
    requires Legal(cs)
    ensures (forall c <- Observe(cs).cases :: c.completed) <==> Closed(cs)
  {
    CompletedSoFar(cs);
    var cases := Observe(cs).cases;
    if Closed(cs) {
      assert forall k :: 0 <= k < |cases| ==> cases[k].completed;
    } else if cases != [] && AllButLast(cases) {
      assert cases[|cases| - 1] in cases;
    } else if !AllButLast(cases) {
      var k :| 0 <= k < |cases| - 1 && !cases[k].completed;
      assert cases[k] in cases;
    }
  }

  /** A skip that was reported between tests, by the set-up of the test's class or module. */
  predicate SkippedBetween(cs: seq<Callback>, t: Test) {
    exists i :: 0 <= i < |cs| && SkipsAt(cs, i, t)
  }

  predicate SkipsAt(cs: seq<Callback>, i: nat, t: Test)
    requires i < |cs|
  {
    && cs[i].Reported? && cs[i].outcome.Skip? && !Open(cs, i)
    && (cs[i].id == "setUpClass (" + t.mod + "." + t.cls + ")" || cs[i].id == "setUpModule (" + t.mod + ")")
  }

  lemma SkippedNext(cs: seq<Callback>, t: Test)
    requires cs != []
    ensures SkippedBetween(cs, t) <==> SkippedBetween(cs[..|cs| - 1], t) || SkipsAt(cs, |cs| - 1, t)
  {
    var n := |cs| - 1;
    forall i | 0 <= i < n ensures SkipsAt(cs[..n], i, t) <==> SkipsAt(cs, i, t) {
      OpenOfPrefix(cs, n, i);
    }
  }

  /** A test is explained exactly by such a skip: one that is reported while a test is open does not
      count, whatever it names. */
  lemma {:induction false} ExplainedExactly(cs: seq<Callback>, t: Test)
    requires Legal(cs)
    ensures Explained(t, Observe(cs).events) <==> SkippedBetween(cs, t)
  {
    if cs != [] {
      var n := |cs| - 1;
      PrefixIsLegal(cs, n);
      ExplainedExactly(cs[..n], t);
      SkippedNext(cs, t);
      ObserveOpen(cs[..n]);
      if cs[n].Reported? {
        ExplainedNext(t, Observe(cs[..n]).events, Observe(cs).events[|Observe(cs).events| - 1]);
      }
    }
  }

  lemma ExplainedNext(t: Test, events: seq<Event>, e: Event)
    ensures Explained(t, events + [e]) <==> Explained(t, events) || FixtureSkip(t, e)
  {
    assert e in events + [e];
    forall x | x in events ensures x in events + [e] {
    }
  }

  // ---------------------------------------------------------------- complete reports

  /** Test `k` is among the first tests of its id that the budget pays for. */
  predicate Due(ts: seq<Test>, budget: multiset<string>, k: nat)
    requires k < |ts|
  {
    multiset(Ids(ts[..k]))[ts[k].id] < budget[ts[k].id]
  }

  lemma DueAfterFirst(ts: seq<Test>, budget: multiset<string>, k: nat)
    requires 0 < k < |ts|
    ensures Due(ts, budget, k) <==> Due(ts[1..], budget - multiset{ts[0].id}, k - 1)
  {
    assert ts[..k][1..] == ts[1..][..k - 1];
    IdsHead(ts[..k]);
  }

  /** The tests a report lists are the due ones. */
  lemma {:induction false} PickIsDue(ts: seq<Test>, budget: multiset<string>, events: seq<Event>)
    ensures (forall u <- Pick(ts, budget, events) :: u.explained) <==>
            forall k :: 0 <= k < |ts| && Due(ts, budget, k) ==> Explained(ts[k], events)
  {
    if ts != [] {
      var rest, less := ts[1..], budget - multiset{ts[0].id};
      PickIsDue(rest, less, events);
      assert Ids(ts[..0]) == [];
      assert Due(ts, budget, 0) <==> budget[ts[0].id] > 0;
      assert budget[ts[0].id] == 0 ==> less == budget;
      forall k | 0 <= k < |rest|
        ensures (Due(rest, less, k) ==> Explained(rest[k], events)) <==> (Due(ts, budget, k + 1) ==> Explained(ts[k + 1], events))
      {
        DueAfterFirst(ts, budget, k + 1);
      }
      DueSplits(ts, budget, less, events);
      PickHead(ts, budget, events);
    }
  }

  ghost predicate AllDue(ts: seq<Test>, budget: multiset<string>, events: seq<Event>) {
    forall k :: 0 <= k < |ts| && Due(ts, budget, k) ==> Explained(ts[k], events)
  }

  lemma DueSplits(ts: seq<Test>, budget: multiset<string>, less: multiset<string>, events: seq<Event>)
    requires ts != []
    requires forall k :: 0 <= k < |ts| - 1 ==>
               ((Due(ts[1..], less, k) ==> Explained(ts[1..][k], events)) <==> (Due(ts, budget, k + 1) ==> Explained(ts[k + 1], events)))
    ensures AllDue(ts, budget, events) <==> (Due(ts, budget, 0) ==> Explained(ts[0], events)) && AllDue(ts[1..], less, events)
  {
    if AllDue(ts[1..], less, events) && (Due(ts, budget, 0) ==> Explained(ts[0], events)) {
      forall k | 0 <= k < |ts| && Due(ts, budget, k) ensures Explained(ts[k], events) {
        if k > 0 {
          assert Due(ts[1..], less, k - 1) ==> Explained(ts[1..][k - 1], events);
        }
      }
    }
  }

  lemma PickHead(ts: seq<Test>, budget: multiset<string>, events: seq<Event>)
    requires ts != []
    ensures var less := budget - multiset{ts[0].id};
            (forall u <- Pick(ts, budget, events) :: u.explained) <==>
            (budget[ts[0].id] > 0 ==> Explained(ts[0], events)) && forall u <- Pick(ts[1..], less, events) :: u.explained
  {
    var less := budget - multiset{ts[0].id};
    if budget[ts[0].id] > 0 {
      var all := Pick(ts, budget, events);
      assert all == [Mark(ts[0], events)] + Pick(ts[1..], less, events);
      assert Mark(ts[0], events) in all;
    } else {
      assert less == budget;
    }
  }

  /** Discovered tests without a start of their own. */
  function NotStarted(discovered: seq<Test>, cs: seq<Callback>): multiset<string> {
    multiset(Ids(discovered)) - multiset(Starts(cs))
  }

  ghost predicate CompleteRun(discovered: seq<Test>, cs: seq<Callback>) {
    && multiset(Starts(cs)) <= multiset(Ids(discovered))
    && Closed(cs)
    && forall k :: 0 <= k < |discovered| && Due(discovered, NotStarted(discovered, cs), k) ==> SkippedBetween(cs, discovered[k])
  }

  /** A report is complete exactly when only discovered tests were started, none more often than it was
      discovered, each was stopped before the next one started, and every test still due was skipped
      between tests by its class or module. */
  lemma CompleteExactly(discovered: seq<Test>, cs: seq<Callback>, r: Report)
    requires Legal(cs)
    requires var s := Observe(cs); IsReport(discovered, s.cases, s.events, s.testsRun, r)
    ensures r.complete <==> CompleteRun(discovered, cs)
  {
    var s := Observe(cs);
    StartsAreCases(cs);
    CompletedExactly(cs);
    StartedExactly(discovered, cs, s.cases);
    DueAreSkipped(discovered, cs);
  }

  lemma DueAreSkipped(discovered: seq<Test>, cs: seq<Callback>)
    requires Legal(cs)
    ensures var events := Observe(cs).events;
            (forall u <- Pick(discovered, NotStarted(discovered, cs), events) :: u.explained) <==>
            forall k :: 0 <= k < |discovered| && Due(discovered, NotStarted(discovered, cs), k) ==> SkippedBetween(cs, discovered[k])
  {
    PickIsDue(discovered, NotStarted(discovered, cs), Observe(cs).events);
    forall t: Test ensures Explained(t, Observe(cs).events) <==> SkippedBetween(cs, t) {
      ExplainedExactly(cs, t);
    }
  }

  lemma StartedExactly(discovered: seq<Test>, cs: seq<Callback>, cases: seq<CaseRecord>)
    requires CaseIds(cases) == Starts(cs)
    ensures (forall id :: !Unexpected(discovered, cases, id)) <==> multiset(Starts(cs)) <= multiset(Ids(discovered))
  {
    if forall id :: !Unexpected(discovered, cases, id) {
      forall id ensures multiset(Starts(cs))[id] <= multiset(Ids(discovered))[id] {
        assert !Unexpected(discovered, cases, id);
      }
    }
  }

  /** With ids that are discovered once each, being due is being not started. */
  lemma DueWhenUnique(discovered: seq<Test>, cs: seq<Callback>, k: nat)
    requires NoRepeats(Ids(discovered)) && k < |discovered|
    ensures Due(discovered, NotStarted(discovered, cs), k) <==> discovered[k].id !in Starts(cs)
  {
    var ids, id := Ids(discovered), discovered[k].id;
    OnlyOnce(ids, k);
    assert Ids(discovered[..k]) == ids[..k];
  }

  lemma OnlyOnce(ids: seq<string>, k: nat)
    requires NoRepeats(ids) && k < |ids|
    ensures ids[k] !in ids[..k] && multiset(ids[..k])[ids[k]] == 0 && multiset(ids)[ids[k]] == 1
  {
    assert ids == ids[..k] + [ids[k]] + ids[k + 1..];
    assert ids[k] !in ids[k + 1..] && ids[k] !in ids[..k];
    assert multiset(ids) == multiset(ids[..k]) + multiset{ids[k]} + multiset(ids[k + 1..]);
  }

  /** For ids that are discovered once each: a run is complete exactly when every discovered test was
      either started, once, and stopped before the next one, or never started and skipped between tests. */
  lemma UniqueCompleteExactly(discovered: seq<Test>, cs: seq<Callback>)
    requires NoRepeats(Ids(discovered))
    ensures CompleteRun(discovered, cs) <==>
            && multiset(Starts(cs)) <= multiset(Ids(discovered)) && Closed(cs)
            && forall k :: 0 <= k < |discovered| ==> discovered[k].id in Starts(cs) || SkippedBetween(cs, discovered[k])
  {
    forall k | 0 <= k < |discovered|
      ensures Due(discovered, NotStarted(discovered, cs), k) <==> discovered[k].id !in Starts(cs)
    {
      DueWhenUnique(discovered, cs, k);
    }
  }

  /** The whole accounting of one run: the callbacks, then `coverage`. */
  method AccountRun(discovered: seq<Test>, cs: seq<Callback>) returns (r: Report)
    requires Legal(cs)
    ensures r.complete <==> CompleteRun(discovered, cs)
    ensures multiset(UnstartedIds(r.notStarted)) == NotStarted(discovered, cs)
  {
    var seen := Deliver(cs);
    ghost var s := Observe(cs);
    r := Account(discovered, seen.cases, seen.events, seen.testsRun);
    CompleteExactly(discovered, cs, r);
    ReportConserves(discovered, s.cases, s.events, s.testsRun, r);
    StartsAreCases(cs);
  }
}
