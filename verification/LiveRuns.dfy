/** The two budgeted loops, as one function. */
module LiveRuns {
  // Live host receipts run over a list of operations; calibration runs over scenarios, cohorts and
  // repetitions.

  import opened Wrappers
  import opened Budget

  /** Whatever the host answered to one call; `exchangedBytes` counts the prompt and both outputs. */
  datatype HostResult = HostResult(
    returncode: int, receiptPass: Option<bool>, clean: bool, usage: Usage, exchangedBytes: int)

  predicate Attested(u: Usage) {
    u.tokens != 0 || u.input != 0 || u.output != 0 || u.cost.Some?
  }

  /** `usage_or_block`. */
  function UsageProblem(p: Policy, r: HostResult): Option<Blocker> {
    if r.returncode != 0 then Some(InvocationFailed)
    else if !Attested(r.usage) then Some(UsageMissing)
    else if p.mode.Metered? && r.usage.cost.None? then Some(CostMissing)
    else None
  }

  /** What the call itself revealed: a failed process receipt, a dirty worktree. */
  function CallProblems(r: HostResult): seq<Blocker> {
    (if r.receiptPass == Some(false) then [ProcessReceiptFailed] else [])
    + (if !r.clean then [WorktreeMutated] else [])
  }

  /** One successful call: what it was for, and what it used. */
  datatype Passed<T> = Passed(item: T, usage: Usage)

  /** The state of a loop.  `started` holds the totals before each call that was started. */
  datatype Run<T> = Run(
    passed: seq<Passed<T>>, blockers: seq<Blocker>, totals: Totals,
    started: seq<Totals>, recorded: seq<Usage>)

  function Start<T>(): Run<T> {
    Run([], [], ZERO, [], [])
  }

  function Stop<T>(s: Run<T>, bs: seq<Blocker>): Run<T> {
    s.(blockers := s.blockers + bs)
  }

  function Began<T>(s: Run<T>): Run<T> {
    s.(started := s.started + [s.totals])
  }

  function Recorded<T>(s: Run<T>, u: Usage): Run<T> {
    s.(totals := Plus(s.totals, u), recorded := s.recorded + [u])
  }

  function Kept<T>(s: Run<T>, item: T, u: Usage): Run<T> {
    s.(passed := s.passed + [Passed(item, u)])
  }

  /** The usage a call is recorded with: calibration adds the context proxy. */
  type Adjust = HostResult -> Usage

  /** What a call that was answered does to the run: inspect, reconcile, keep. */
  function Settle<T>(p: Policy, r: HostResult, item: T, adjust: Adjust, s: Run<T>): Run<T> {
    if CallProblems(r) != [] then Stop(s, CallProblems(r))
    else if UsageProblem(p, r).Some? then Stop(s, [UsageProblem(p, r).value])
    else Reconciled(p, item, adjust(r), s)
  }

  function Reconciled<T>(p: Policy, item: T, u: Usage, s: Run<T>): Run<T> {
    var s2 := Recorded(s, u);
    if Reconcile(p, s2.totals).Some? then Stop(s2, [Reconcile(p, s2.totals).value]) else Kept(s2, item, u)
  }

  /** One iteration: check, call, settle. */
  function Turn<T>(p: Policy, r: HostResult, item: T, adjust: Adjust, s: Run<T>): Run<T> {
    if Before(p, s.totals).Some? then Stop(s, [Before(p, s.totals).value]) else Settle(p, r, item, adjust, Began(s))
  }

  /** The loop: one turn per item, until a blocker appears. */
  function Loop<T>(p: Policy, host: nat -> HostResult, items: seq<T>, adjust: Adjust, s: Run<T>): Run<T>
    decreases |items|
  {
    if items == [] || s.blockers != [] then s
    else Loop(p, host, items[1..], adjust, Turn(p, host(|s.started|), items[0], adjust, s))
  }

  // ---------------------------------------------------------------- invariants of every run

  function Usages<T>(ps: seq<Passed<T>>): (us: seq<Usage>)
    ensures |us| == |ps| && forall k :: 0 <= k < |ps| ==> us[k] == ps[k].usage
  {
    seq(|ps|, k requires 0 <= k < |ps| => ps[k].usage)
  }

  function Items<T>(ps: seq<Passed<T>>): (xs: seq<T>)
    ensures |xs| == |ps| && forall k :: 0 <= k < |ps| ==> xs[k] == ps[k].item
  {
    seq(|ps|, k requires 0 <= k < |ps| => ps[k].item)
  }

  /** How far a run got: calls passed, recorded and started differ by at most one. */
  ghost predicate Paced<T>(p: Policy, s: Run<T>) {
    && |s.passed| <= |s.recorded| <= |s.started| <= |s.passed| + 1
    && (s.blockers == [] ==> |s.passed| == |s.started|)
    && (s.blockers == [] && s.started != [] ==> Within(p, s.totals))
  }

  /** What a run has spent: the totals are the recorded usages, and each call was started from the
      totals of the calls before it, strictly below every cap. */
  ghost predicate Booked<T>(p: Policy, s: Run<T>) {
    && s.totals == Sum(s.recorded)
    && |s.recorded| <= |s.started|
    && (forall k :: 0 <= k < |s.started| ==> StrictlyBelow(p, s.started[k]))
    && (forall k :: 0 <= k < |s.started| && k <= |s.recorded| ==> s.started[k] == Sum(s.recorded[..k]))
    && |s.passed| <= |s.recorded|
    && (forall k :: 0 <= k < |s.passed| ==> s.passed[k].usage == s.recorded[k])
  }

  ghost predicate Accounted<T>(p: Policy, s: Run<T>) {
    Paced(p, s) && Booked(p, s)
  }

  lemma TurnPaces<T>(p: Policy, r: HostResult, item: T, adjust: Adjust, s: Run<T>)
    requires Paced(p, s) && s.blockers == []
    ensures Paced(p, Turn(p, r, item, adjust, s))
  {
  }

  lemma SumOfMore(us: seq<Usage>, u: Usage)
    ensures Sum(us + [u]) == Plus(Sum(us), u)
    ensures forall k :: 0 <= k <= |us| ==> (us + [u])[..k] == us[..k]
  {
    assert (us + [u])[..|us|] == us;
  }

  lemma BeginBooks<T>(p: Policy, s: Run<T>)
    requires Booked(p, s) && |s.started| == |s.recorded| && StrictlyBelow(p, s.totals)
    ensures Booked(p, Began(s))
  {
    assert s.recorded[..|s.recorded|] == s.recorded;
  }

  lemma RecordBooks<T>(p: Policy, s: Run<T>, u: Usage)
    requires Booked(p, s) && |s.started| == |s.recorded| + 1
    ensures Booked(p, Recorded(s, u))
  {
    SumOfMore(s.recorded, u);
  }

  lemma KeepBooks<T>(p: Policy, s: Run<T>, item: T, u: Usage)
    requires Booked(p, s) && |s.recorded| == |s.passed| + 1 && s.recorded[|s.passed|] == u
    ensures Booked(p, Kept(s, item, u))
  {
  }

  lemma StopBooks<T>(p: Policy, s: Run<T>, bs: seq<Blocker>)
    requires Booked(p, s)
    ensures Booked(p, Stop(s, bs))
  {
  }

  lemma SettleBooks<T>(p: Policy, r: HostResult, item: T, adjust: Adjust, s: Run<T>)
    requires Booked(p, s) && |s.started| == |s.recorded| + 1 && |s.passed| == |s.recorded|
    ensures Booked(p, Settle(p, r, item, adjust, s))
  {
    if CallProblems(r) != [] {
      StopBooks(p, s, CallProblems(r));
    } else if UsageProblem(p, r).Some? {
      StopBooks(p, s, [UsageProblem(p, r).value]);
    } else {
      ReconcileBooks(p, item, adjust(r), s);
    }
  }

  lemma ReconcileBooks<T>(p: Policy, item: T, u: Usage, s: Run<T>)
    requires Booked(p, s) && |s.started| == |s.recorded| + 1 && |s.passed| == |s.recorded|
    ensures Booked(p, Reconciled(p, item, u, s))
  {
    RecordBooks(p, s, u);
    var s2 := Recorded(s, u);
    if Reconcile(p, s2.totals).Some? {
      StopBooks(p, s2, [Reconcile(p, s2.totals).value]);
    } else {
      KeepBooks(p, s2, item, u);
    }
  }

  lemma TurnBooks<T>(p: Policy, r: HostResult, item: T, adjust: Adjust, s: Run<T>)
    requires Accounted(p, s) && s.blockers == []
    ensures Booked(p, Turn(p, r, item, adjust, s))
  {
    if Before(p, s.totals).Some? {
      StopBooks(p, s, [Before(p, s.totals).value]);
    } else {
      BeginBooks(p, s);
      SettleBooks(p, r, item, adjust, Began(s));
    }
  }

  lemma TurnAccounts<T>(p: Policy, r: HostResult, item: T, adjust: Adjust, s: Run<T>)
    requires Accounted(p, s) && s.blockers == []
    ensures Accounted(p, Turn(p, r, item, adjust, s))
  {
    TurnPaces(p, r, item, adjust, s);
    TurnBooks(p, r, item, adjust, s);
  }

  /** Every run of either loop, against any host, keeps the accounting. */
  lemma {:induction false} LoopAccounts<T>(p: Policy, host: nat -> HostResult, items: seq<T>, adjust: Adjust, s: Run<T>)
    requires Accounted(p, s)
    ensures Accounted(p, Loop(p, host, items, adjust, s))
    decreases |items|
  {
    if items != [] && s.blockers == [] {
      TurnAccounts(p, host(|s.started|), items[0], adjust, s);
      LoopAccounts(p, host, items[1..], adjust, Turn(p, host(|s.started|), items[0], adjust, s));
    }
  }

  /** Over every run: each started call began with the sum of the usages recorded before it, every
      configured counter strictly below its cap;
      the totals are the sum of the recorded usages; a run without blockers ends within every cap;
      and at most one call was started, and at most one recorded, beyond the ones that passed. */
  lemma EveryRunAccounts<T>(p: Policy, host: nat -> HostResult, items: seq<T>, adjust: Adjust)
    ensures var s := Loop(p, host, items, adjust, Start<T>());
            && |s.passed| <= |s.recorded| <= |s.started| <= |s.passed| + 1
            && (forall k :: 0 <= k < |s.started| ==>
                  k <= |s.recorded| && s.started[k] == Sum(s.recorded[..k]) && StrictlyBelow(p, s.started[k]))
            && s.totals == Sum(s.recorded)
            && (s.blockers == [] && items != [] ==> Within(p, s.totals) && Usages(s.passed) == s.recorded)
  {
    LoopAccounts(p, host, items, adjust, Start<T>());
    LoopPasses(p, host, items, adjust, Start<T>());
    var s := Loop(p, host, items, adjust, Start<T>());
    assert s.started == [] ==> s.passed == [];
  }

  /** A budget is never overshot by a whole call: when a counter ends above its cap, the excess is
      strictly less than what the last recorded call used. */
  lemma OvershootIsPartial<T>(p: Policy, host: nat -> HostResult, items: seq<T>, adjust: Adjust, c: Counter)
    ensures var s := Loop(p, host, items, adjust, Start<T>());
            s.recorded != [] && Excess(p, s.totals, c).Some? ==>
              Excess(p, s.totals, c).value < Adds(s.recorded[|s.recorded| - 1], c)
  {
    LoopAccounts(p, host, items, adjust, Start<T>());
    var s := Loop(p, host, items, adjust, Start<T>());
    if s.recorded != [] {
      LastCallStartedBelow(p, s);
      ExcessIsPartial(p, s.started[|s.recorded| - 1], s.recorded[|s.recorded| - 1], c);
    }
  }

  lemma LastCallStartedBelow<T>(p: Policy, s: Run<T>)
    requires Booked(p, s) && s.recorded != []
    ensures var n := |s.recorded| - 1;
            n < |s.started| && StrictlyBelow(p, s.started[n]) && s.totals == Plus(s.started[n], s.recorded[n])
  {
    var n := |s.recorded| - 1;
    assert s.started[n] == Sum(s.recorded[..n]);
  }

  // ---------------------------------------------------------------- what a run covers

  /** From run `s` to run `t`, the first items of `items` passed, in order, and all of them exactly
      when no blocker appeared. */
  ghost predicate Passes<T>(s: Run<T>, items: seq<T>, t: Run<T>) {
    && |s.passed| <= |t.passed| <= |s.passed| + |items|
    && Items(t.passed) == Items(s.passed) + items[..|t.passed| - |s.passed|]
    && (t.blockers == [] <==> s.blockers == [] && |t.passed| == |s.passed| + |items|)
    && (s.blockers != [] ==> t.passed == s.passed)
  }

  /** Nothing is passed out of order or twice, and a run without blockers passes everything. */
  lemma {:induction false} LoopPasses<T>(p: Policy, host: nat -> HostResult, items: seq<T>, adjust: Adjust, s: Run<T>)
    ensures Passes(s, items, Loop(p, host, items, adjust, s))
    decreases |items|
  {
    if items != [] && s.blockers == [] {
      var s' := Turn(p, host(|s.started|), items[0], adjust, s);
      TurnPasses(p, host(|s.started|), items[0], adjust, s);
      LoopPasses(p, host, items[1..], adjust, s');
      PassesJoin(s, items, s', Loop(p, host, items, adjust, s));
    } else {
      assert items[..0] == [];
    }
  }

  lemma PassesJoin<T>(s: Run<T>, items: seq<T>, s': Run<T>, t: Run<T>)
    requires items != [] && s.blockers == []
    requires if s'.blockers == [] then Items(s'.passed) == Items(s.passed) + [items[0]] else s'.passed == s.passed
    requires Passes(s', items[1..], t)
    ensures Passes(s, items, t)
  {
    var n := |t.passed| - |s'.passed|;
    if s'.blockers == [] {
      assert |s'.passed| == |Items(s'.passed)| == |s.passed| + 1;
      assert [items[0]] + items[1..][..n] == items[..n + 1];
    } else {
      assert items[..0] == [];
    }
  }

  lemma TurnPasses<T>(p: Policy, r: HostResult, item: T, adjust: Adjust, s: Run<T>)
    requires s.blockers == []
    ensures var t := Turn(p, r, item, adjust, s);
            if t.blockers == [] then Items(t.passed) == Items(s.passed) + [item] else t.passed == s.passed
  {
  }

  /** No call follows a blocker. */
  lemma BlockedLoopStops<T>(p: Policy, host: nat -> HostResult, items: seq<T>, more: seq<T>, adjust: Adjust)
    ensures var s := Loop(p, host, items, adjust, Start<T>());
            s.blockers != [] ==> Loop(p, host, items + more, adjust, Start<T>()) == s
  {
    LoopConcat(p, host, items, more, adjust, Start<T>());
  }

  lemma {:induction false} LoopConcat<T>(p: Policy, host: nat -> HostResult, a: seq<T>, b: seq<T>, adjust: Adjust, s: Run<T>)
    ensures Loop(p, host, a + b, adjust, s) == Loop(p, host, b, adjust, Loop(p, host, a, adjust, s))
    decreases |a|
  {
    if a == [] {
      assert a + b == b;
    } else if s.blockers == [] {
      assert (a + b)[0] == a[0] && (a + b)[1..] == a[1..] + b;
      LoopConcat(p, host, a[1..], b, adjust, Turn(p, host(|s.started|), a[0], adjust, s));
    }
  }

  // ---------------------------------------------------------------- the invocation cap

  lemma {:induction false} SumCounts(us: seq<Usage>)
    ensures Sum(us).invocations == |us|
  {
    if us != [] {
      SumCounts(us[..|us| - 1]);
    }
  }

  predicate CapAllows(p: Policy, n: int) {
    p.maxInvocations.None? || p.maxInvocations.value >= n
  }

  predicate CapSilent(bs: seq<Blocker>) {
    CapReached(Invocations) !in bs && CapExceeded(Invocations) !in bs
  }

  lemma {:induction false} LoopKeepsCapSilent<T>(p: Policy, host: nat -> HostResult, items: seq<T>, adjust: Adjust, s: Run<T>)
    requires CapSilent(s.blockers) && CapAllows(p, s.totals.invocations + |items|)
    ensures CapSilent(Loop(p, host, items, adjust, s).blockers)
    decreases |items|
  {
    if items != [] && s.blockers == [] {
      TurnKeepsCapSilent(p, host(|s.started|), items[0], adjust, s);
      LoopKeepsCapSilent(p, host, items[1..], adjust, Turn(p, host(|s.started|), items[0], adjust, s));
    }
  }

  lemma TurnKeepsCapSilent<T>(p: Policy, r: HostResult, item: T, adjust: Adjust, s: Run<T>)
    requires s.blockers == [] && CapAllows(p, s.totals.invocations + 1)
    ensures var t := Turn(p, r, item, adjust, s);
            CapSilent(t.blockers) && t.totals.invocations <= s.totals.invocations + 1
  {
    assert Before(p, s.totals) != Some(CapReached(Invocations));
    var u := adjust(r);
    assert Reconcile(p, Plus(s.totals, u)) != Some(CapExceeded(Invocations));
  }

  /** In subscription and local modes, authorising the required number of calls guarantees that the
      invocation cap stops no run of that length, whatever the host does. */
  lemma AuthorisedCapNeverBlocks<T>(p: Policy, allow: bool, host: nat -> HostResult, items: seq<T>, adjust: Adjust)
    requires Authorise(p, allow, |items|).None? && (p.mode.Subscription? || p.mode.Local?)
    ensures CapSilent(Loop(p, host, items, adjust, Start<T>()).blockers)
  {
    LoopKeepsCapSilent(p, host, items, adjust, Start<T>());
  }

  /** In any mode, a run can be clean only if the invocation cap allows its whole length. */
  lemma CleanRunFitsCap<T>(p: Policy, host: nat -> HostResult, items: seq<T>, adjust: Adjust)
    requires items != [] && Loop(p, host, items, adjust, Start<T>()).blockers == []
    ensures CapAllows(p, |items|)
  {
    EveryRunAccounts(p, host, items, adjust);
    LoopPasses(p, host, items, adjust, Start<T>());
    SumCounts(Loop(p, host, items, adjust, Start<T>()).recorded);
  }
}
