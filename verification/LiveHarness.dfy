/** The live harness: checks before any call, and the budgeted loops. */
module LiveHarness {
  // The loops work on a tracker and on lists that are updated in place, and are proved against
  // `LiveRuns.Loop`.

  import opened Wrappers
  import opened Budget
  import opened LiveRuns

  /** What the preflight checks look at besides the policy. */
  datatype Inputs = Inputs(
    extra: seq<Blocker>, allowLive: bool, worktreeClean: Option<bool>, hasReceiptPath: bool,
    hasModelSelection: bool, hasModelSelectionPath: bool)

  predicate Ready(p: Policy, i: Inputs, required: int) {
    && i.extra == [] && Authorise(p, i.allowLive, required).None? && i.worktreeClean == Some(true)
    && i.hasReceiptPath && (i.hasModelSelection ==> i.hasModelSelectionPath)
  }

  /** `validate_live_inputs` and `validate_model_selection_inputs`, on the blockers found so far. */
  method ValidateInputs(p: Policy, i: Inputs, required: int, found: seq<Blocker>) returns (blockers: seq<Blocker>)
    ensures found <= blockers
    ensures blockers == [] <==> found == [] && Ready(p, i.(extra := []), required)
  {
    blockers := found;
    var refused := Authorise(p, i.allowLive, required);
    if refused.Some? {
      blockers := blockers + [refused.value];
    }
    if i.worktreeClean != Some(true) {
      blockers := blockers + [Preflight("BLOCKED_DIRTY_WORKTREE")];
    }
    if !i.hasReceiptPath {
      blockers := blockers + [Preflight("missing-receipt-path")];
    }
    if i.hasModelSelection && !i.hasModelSelectionPath {
      blockers := blockers + [Preflight("missing-model-selection-receipt-path")];
    }
  }

  /** A receipt records the usage as the host reported it. */
  function AsReported(r: HostResult): Usage {
    r.usage
  }

  /** Calibration fills a missing context size with the harness's own count. */
  function WithContext(r: HostResult): (u: Usage)
    ensures u.contextBytes.Some? && u.(contextBytes := r.usage.contextBytes) == r.usage
    ensures r.usage.contextBytes.Some? ==> u == r.usage
  {
    if r.usage.contextBytes.None? then r.usage.(contextBytes := Some(r.exchangedBytes)) else r.usage
  }

  datatype Outcome<T> = Outcome(pass: bool, blockers: seq<Blocker>, passed: seq<Passed<T>>, totals: Totals, calls: nat)

  /** The outcome shows exactly this run. */
  ghost predicate Shows<T>(o: Outcome<T>, s: Run<T>) {
    && o.blockers == s.blockers && o.passed == s.passed && o.totals == s.totals && o.calls == |s.started|
    && (o.pass <==> s.blockers == [])
  }

  /** The local variables of a loop hold this run. */
  ghost predicate Holds<T>(blockers: seq<Blocker>, passed: seq<Passed<T>>, tracker: BudgetTracker, calls: nat, s: Run<T>)
    reads tracker
  {
    blockers == s.blockers && passed == s.passed && tracker.Current() == s.totals && calls == |s.started|
  }

  /** The body of either loop. */
  method TakeTurn<T>(p: Policy, host: nat -> HostResult, item: T, calibrating: bool, tracker: BudgetTracker,
                     passed: seq<Passed<T>>, calls: nat, ghost s: Run<T>)
    returns (blockers: seq<Blocker>, passed': seq<Passed<T>>, calls': nat)
    requires Holds([], passed, tracker, calls, s)
    modifies tracker
    ensures Holds(blockers, passed', tracker, calls',
                  Turn(p, host(|s.started|), item, if calibrating then WithContext else AsReported, s))
  {
    blockers, passed', calls' := [], passed, calls;
    var refused := Before(p, tracker.Current());
    if refused.Some? {
      blockers := [refused.value];
      return;
    }
    var r := host(calls);
    calls' := calls + 1;
    if r.receiptPass == Some(false) {
      blockers := blockers + [ProcessReceiptFailed];
    }
    if !r.clean {
      blockers := blockers + [WorktreeMutated];
    }
    if blockers != [] {
      return;
    }
    var problem := UsageProblem(p, r);
    var usage := if calibrating then WithContext(r) else AsReported(r);
    if problem.None? && calibrating && usage.contextBytes.None? {
      problem := Some(ContextMissing);
    }
    if problem.Some? {
      blockers := [problem.value];
      return;
    }
    var exceeded := tracker.Record(usage, p);
    if exceeded.Some? {
      blockers := [exceeded.value];
      return;
    }
    passed' := passed + [Passed(item, usage)];
  }

  lemma LoopOnce<T>(p: Policy, host: nat -> HostResult, item: T, adjust: Adjust, s: Run<T>)
    requires s.blockers == []
    ensures Loop(p, host, [item], adjust, s) == Turn(p, host(|s.started|), item, adjust, s)
  {
    var t := Turn(p, host(|s.started|), item, adjust, s);
    assert Loop(p, host, [item][1..], adjust, t) == t;
  }

  /** One more turn is one more item. */
  lemma LoopNext<T>(p: Policy, host: nat -> HostResult, items: seq<T>, item: T, adjust: Adjust)
    requires Loop(p, host, items, adjust, Start()).blockers == []
    ensures var s := Loop(p, host, items, adjust, Start());
            Loop(p, host, items + [item], adjust, Start()) == Turn(p, host(|s.started|), item, adjust, s)
  {
    LoopConcat(p, host, items, [item], adjust, Start());
    LoopOnce(p, host, item, adjust, Loop(p, host, items, adjust, Start()));
  }

  lemma SameNames(passed: seq<Passed<string>>, operations: seq<string>)
    requires Items(passed) == operations
    ensures (set k | 0 <= k < |passed| :: passed[k].item) == (set k | 0 <= k < |operations| :: operations[k])
  {
    assert |passed| == |operations| && forall k :: 0 <= k < |passed| ==> passed[k].item == operations[k];
  }

  /** The loop over the operations. */
  method CallOperations(p: Policy, operations: seq<string>, host: nat -> HostResult, tracker: BudgetTracker)
    returns (blockers: seq<Blocker>, passed: seq<Passed<string>>, calls: nat)
    requires tracker.Current() == ZERO
    modifies tracker
    ensures Holds(blockers, passed, tracker, calls, Loop(p, host, operations, AsReported, Start()))
  {
    blockers, passed, calls := [], [], 0;
    ghost var s := Start<string>();
    for k := 0 to |operations|
      invariant s == Loop(p, host, operations[..k], AsReported, Start()) && s.blockers == []
      invariant Holds(blockers, passed, tracker, calls, s)
    {
      LoopNext(p, host, operations[..k], operations[k], AsReported);
      assert operations[..k + 1] == operations[..k] + [operations[k]];
      blockers, passed, calls := TakeTurn(p, host, operations[k], false, tracker, passed, calls, s);
      s := Turn(p, host(|s.started|), operations[k], AsReported, s);
      if blockers != [] {
        BlockedLoopStops(p, host, operations[..k + 1], operations[k + 1..], AsReported);
        assert operations == operations[..k + 1] + operations[k + 1..];
        return;
      }
    }
    assert operations[..|operations|] == operations;
  }

  /** `run_live_host_receipt`: the loop runs exactly when the preflight checks found nothing, and the
      outcome is the loop's own, so the missing-operation check never adds a blocker. */
  method RunLiveHostReceipt(p: Policy, i: Inputs, operations: seq<string>, host: nat -> HostResult)
    returns (o: Outcome<string>)
    ensures if Ready(p, i, |operations|) then Shows(o, Loop(p, host, operations, AsReported, Start()))
            else o.blockers != [] && o.passed == [] && o.calls == 0
    ensures o.pass <==> o.blockers == []
    ensures o.pass ==> Items(o.passed) == operations
  {
    var blockers := ValidateInputs(p, i, |operations|, i.extra);
    if blockers != [] {
      return Outcome(false, blockers, [], ZERO, 0);
    }
    var tracker := new BudgetTracker();
    var passed, calls;
    blockers, passed, calls := CallOperations(p, operations, host, tracker);
    LoopPasses(p, host, operations, AsReported, Start());
    assert blockers == [] ==> Items(passed) == operations;
    if blockers == [] {
      SameNames(passed, operations);
      if (set k | 0 <= k < |passed| :: passed[k].item) != (set k | 0 <= k < |operations| :: operations[k]) {
        blockers := [OperationMissing];
      }
    }
    o := Outcome(blockers == [], blockers, passed, tracker.Current(), calls);
  }

  // ---------------------------------------------------------------- calibration

  datatype Slot = Slot(scenario: string, cohort: string, run: nat)

  function Repeats(scenario: string, cohort: string, n: nat): seq<Slot> {
    if n == 0 then [] else Repeats(scenario, cohort, n - 1) + [Slot(scenario, cohort, n)]
  }

  function CohortSlots(scenario: string, cohorts: seq<string>, n: nat): seq<Slot> {
    if cohorts == [] then []
    else CohortSlots(scenario, cohorts[..|cohorts| - 1], n) + Repeats(scenario, cohorts[|cohorts| - 1], n)
  }

  /** Every scenario with every cohort, each `n` times. */
  function Product(scenarios: seq<string>, cohorts: seq<string>, n: nat): seq<Slot> {
    if scenarios == [] then []
    else Product(scenarios[..|scenarios| - 1], cohorts, n) + CohortSlots(scenarios[|scenarios| - 1], cohorts, n)
  }

  lemma {:induction false} RepeatsAt(scenario: string, cohort: string, n: nat)
    ensures |Repeats(scenario, cohort, n)| == n
    ensures forall k :: 0 <= k < n ==> Repeats(scenario, cohort, n)[k] == Slot(scenario, cohort, k + 1)
  {
    if n > 0 {
      RepeatsAt(scenario, cohort, n - 1);
    }
  }

  lemma {:induction false} CohortSlotsLength(scenario: string, cohorts: seq<string>, n: nat)
    ensures |CohortSlots(scenario, cohorts, n)| == |cohorts| * n
  {
    if cohorts != [] {
      CohortSlotsLength(scenario, cohorts[..|cohorts| - 1], n);
      RepeatsAt(scenario, cohorts[|cohorts| - 1], n);
      Distribute(|cohorts| - 1, n);
    }
  }

  lemma {:induction false} ProductLength(scenarios: seq<string>, cohorts: seq<string>, n: nat)
    ensures |Product(scenarios, cohorts, n)| == |scenarios| * (|cohorts| * n)
  {
    if scenarios != [] {
      ProductLength(scenarios[..|scenarios| - 1], cohorts, n);
      CohortSlotsLength(scenarios[|scenarios| - 1], cohorts, n);
      Distribute(|scenarios| - 1, |cohorts| * n);
    }
  }

  lemma Distribute(m: nat, n: nat)
    ensures (m + 1) * n == m * n + n
  {
  }

  lemma {:induction false} RowIndex(rows: nat, n: nat, b: nat, k: nat)
    requires b < rows && k < n
    ensures 0 <= b * n + k < rows * n
    decreases rows
  {
    Distribute(rows - 1, n);
    if b < rows - 1 {
      RowIndex(rows - 1, n, b, k);
    }
  }

  lemma {:induction false} CohortSlotsAt(scenario: string, cohorts: seq<string>, n: nat, b: nat, k: nat)
    requires b < |cohorts| && k < n
    ensures var at := b * n + k;
            at < |CohortSlots(scenario, cohorts, n)|
            && CohortSlots(scenario, cohorts, n)[at] == Slot(scenario, cohorts[b], k + 1)
    decreases |cohorts|
  {
    var m := |cohorts| - 1;
    CohortSlotsLength(scenario, cohorts[..m], n);
    RepeatsAt(scenario, cohorts[m], n);
    if b < m {
      CohortSlotsAt(scenario, cohorts[..m], n, b, k);
    }
  }

  lemma {:induction false} ProductRow(scenarios: seq<string>, cohorts: seq<string>, n: nat, row: nat, a: nat, j: nat)
    requires row == |cohorts| * n
    requires a < |scenarios| && j < |CohortSlots(scenarios[a], cohorts, n)|
    ensures 0 <= a * row + j < |Product(scenarios, cohorts, n)|
    ensures Product(scenarios, cohorts, n)[a * row + j] == CohortSlots(scenarios[a], cohorts, n)[j]
    decreases |scenarios|
  {
    var m := |scenarios| - 1;
    if a < m {
      ProductRow(scenarios[..m], cohorts, n, row, a, j);
    } else {
      ProductLength(scenarios[..m], cohorts, n);
    }
  }

  /** The product is lexicographic: with `row` slots to a scenario, position `a * row + (b * n + k)`
      holds repetition `k + 1` of scenario `a` with cohort `b`. */
  lemma ProductAt(
      scenarios: seq<string>, cohorts: seq<string>, n: nat, row: nat, a: nat, b: nat, k: nat, j: nat)
    requires a < |scenarios| && b < |cohorts| && k < n
    requires row == |cohorts| * n && j == b * n + k
    ensures 0 <= a * row + j < |Product(scenarios, cohorts, n)|
    ensures Product(scenarios, cohorts, n)[a * row + j] == Slot(scenarios[a], cohorts[b], k + 1)
  {
    CohortSlotsAt(scenarios[a], cohorts, n, b, k);
    ProductRow(scenarios, cohorts, n, row, a, j);
  }

  lemma {:induction false} RepeatsPrefix(scenario: string, cohort: string, m: nat, n: nat)
    requires m <= n
    ensures Repeats(scenario, cohort, m) <= Repeats(scenario, cohort, n)
  {
    if m < n {
      RepeatsPrefix(scenario, cohort, m, n - 1);
    }
  }

  lemma {:induction false} CohortSlotsPrefix(scenario: string, cohorts: seq<string>, m: nat, n: nat)
    requires m <= |cohorts|
    ensures CohortSlots(scenario, cohorts[..m], n) <= CohortSlots(scenario, cohorts, n)
    decreases |cohorts|
  {
    if m < |cohorts| {
      CohortSlotsPrefix(scenario, cohorts[..|cohorts| - 1], m, n);
      assert cohorts[..|cohorts| - 1][..m] == cohorts[..m];
    } else {
      assert cohorts[..m] == cohorts;
    }
  }

  lemma {:induction false} ProductPrefix(scenarios: seq<string>, cohorts: seq<string>, m: nat, n: nat)
    requires m <= |scenarios|
    ensures Product(scenarios[..m], cohorts, n) <= Product(scenarios, cohorts, n)
    decreases |scenarios|
  {
    if m < |scenarios| {
      ProductPrefix(scenarios[..|scenarios| - 1], cohorts, m, n);
      assert scenarios[..|scenarios| - 1][..m] == scenarios[..m];
    } else {
      assert scenarios[..m] == scenarios;
    }
  }

  /** A run stopped by a blocker is also the run of every longer list. */
  lemma StoppedIsFinal<T>(p: Policy, host: nat -> HostResult, part: seq<T>, whole: seq<T>, adjust: Adjust)
    requires part <= whole && Loop(p, host, part, adjust, Start()).blockers != []
    ensures Loop(p, host, whole, adjust, Start()) == Loop(p, host, part, adjust, Start())
  {
    assert whole == part + whole[|part|..];
    BlockedLoopStops(p, host, part, whole[|part|..], adjust);
  }

  /** `requested_runs`: what the caller asked for, or else the profile's minimum. */
  function RequestedRuns(runs: Option<int>, minimum: Option<int>): int {
    if runs.Some? && runs.value != 0 then runs.value else MinimumRuns(minimum)
  }

  function MinimumRuns(minimum: Option<int>): int {
    if minimum.Some? && minimum.value > 0 then minimum.value else 1
  }

  /** What calibration reads from the profile and the budget targets. */
  datatype Profile = Profile(
    scenarios: seq<string>, cohorts: seq<string>, minimumRuns: Option<int>, schemaSupported: bool, hostRequired: bool,
    corpus: seq<string>, targetCohorts: seq<string>)

  function Names(xs: seq<string>): set<string> {
    set k | 0 <= k < |xs| :: xs[k]
  }

  predicate ProfileMatches(f: Profile, requested: int) {
    && f.schemaSupported && f.hostRequired
    && Names(f.scenarios) == Names(f.corpus) && Names(f.cohorts) == Names(f.targetCohorts)
    && requested >= MinimumRuns(f.minimumRuns)
  }

  /** `validate_calibration_inputs`. */
  method ValidateProfile(f: Profile, requested: int, found: seq<Blocker>) returns (blockers: seq<Blocker>)
    ensures blockers == [] <==> found == [] && ProfileMatches(f, requested)
  {
    blockers := found;
    if !f.schemaSupported {
      blockers := blockers + [Preflight("invalid-live-calibration-profile")];
    }
    if !f.hostRequired {
      blockers := blockers + [Preflight("live-calibration-host-unsupported")];
    }
    if Names(f.scenarios) != Names(f.corpus) {
      blockers := blockers + [Preflight("live-calibration-corpus-mismatch")];
    }
    if Names(f.cohorts) != Names(f.targetCohorts) {
      blockers := blockers + [Preflight("live-calibration-cohort-mismatch")];
    }
    if requested < MinimumRuns(f.minimumRuns) {
      blockers := blockers + [Preflight("live-calibration-run-count-too-low")];
    }
  }

  lemma RepeatsNext(done: seq<Slot>, scenario: string, cohort: string, k: nat)
    ensures (done + Repeats(scenario, cohort, k)) + [Slot(scenario, cohort, k + 1)] == done + Repeats(scenario, cohort, k + 1)
  {
  }

  lemma StoppedRepeats(
      p: Policy, host: nat -> HostResult, done: seq<Slot>, scenario: string, cohort: string, k: nat, n: nat)
    requires k <= n && Loop(p, host, done + Repeats(scenario, cohort, k), WithContext, Start()).blockers != []
    ensures Loop(p, host, done + Repeats(scenario, cohort, n), WithContext, Start())
            == Loop(p, host, done + Repeats(scenario, cohort, k), WithContext, Start())
  {
    RepeatsPrefix(scenario, cohort, k, n);
    StoppedIsFinal(p, host, done + Repeats(scenario, cohort, k), done + Repeats(scenario, cohort, n), WithContext);
  }

  lemma CohortsNext(done: seq<Slot>, scenario: string, cohorts: seq<string>, b: nat, n: nat)
    requires b < |cohorts|
    ensures (done + CohortSlots(scenario, cohorts[..b], n)) + Repeats(scenario, cohorts[b], n)
            == done + CohortSlots(scenario, cohorts[..b + 1], n)
  {
    assert cohorts[..b + 1][..b] == cohorts[..b];
  }

  lemma StoppedCohorts(
      p: Policy, host: nat -> HostResult, done: seq<Slot>, scenario: string, cohorts: seq<string>, b: nat, n: nat)
    requires b <= |cohorts|
    requires Loop(p, host, done + CohortSlots(scenario, cohorts[..b], n), WithContext, Start()).blockers != []
    ensures Loop(p, host, done + CohortSlots(scenario, cohorts, n), WithContext, Start())
            == Loop(p, host, done + CohortSlots(scenario, cohorts[..b], n), WithContext, Start())
  {
    CohortSlotsPrefix(scenario, cohorts, b, n);
    StoppedIsFinal(p, host, done + CohortSlots(scenario, cohorts[..b], n), done + CohortSlots(scenario, cohorts, n), WithContext);
  }

  /** What the innermost loop does after the slots in `done`. */
  method CallRepeats(p: Policy, scenario: string, cohort: string, n: nat, host: nat -> HostResult, tracker: BudgetTracker,
                     passed0: seq<Passed<Slot>>, calls0: nat, ghost done: seq<Slot>)
    returns (blockers: seq<Blocker>, passed: seq<Passed<Slot>>, calls: nat)
    requires Holds([], passed0, tracker, calls0, Loop(p, host, done, WithContext, Start()))
    modifies tracker
    ensures Holds(blockers, passed, tracker, calls,
                  Loop(p, host, done + Repeats(scenario, cohort, n), WithContext, Start()))
  {
    blockers, passed, calls := [], passed0, calls0;
    ghost var slots := done;
    assert done + [] == done;
    for k := 0 to n
      invariant slots == done + Repeats(scenario, cohort, k) && blockers == []
      invariant Holds([], passed, tracker, calls, Loop(p, host, slots, WithContext, Start()))
    {
      var slot := Slot(scenario, cohort, k + 1);
      ghost var s := Loop(p, host, slots, WithContext, Start());
      LoopNext(p, host, slots, slot, WithContext);
      blockers, passed, calls := TakeTurn(p, host, slot, true, tracker, passed, calls, s);
      slots := slots + [slot];
      RepeatsNext(done, scenario, cohort, k);
      if blockers != [] {
        StoppedRepeats(p, host, done, scenario, cohort, k + 1, n);
        return;
      }
    }
  }

  /** The middle loop, one cohort after the other. */
  method CallCohorts(p: Policy, scenario: string, cohorts: seq<string>, n: nat, host: nat -> HostResult, tracker: BudgetTracker,
                     passed0: seq<Passed<Slot>>, calls0: nat, ghost done: seq<Slot>)
    returns (blockers: seq<Blocker>, passed: seq<Passed<Slot>>, calls: nat)
    requires Holds([], passed0, tracker, calls0, Loop(p, host, done, WithContext, Start()))
    modifies tracker
    ensures Holds(blockers, passed, tracker, calls,
                  Loop(p, host, done + CohortSlots(scenario, cohorts, n), WithContext, Start()))
  {
    blockers, passed, calls := [], passed0, calls0;
    ghost var slots := done;
    assert done + [] == done;
    for b := 0 to |cohorts|
      invariant slots == done + CohortSlots(scenario, cohorts[..b], n) && blockers == []
      invariant Holds([], passed, tracker, calls, Loop(p, host, slots, WithContext, Start()))
    {
      blockers, passed, calls := CallRepeats(p, scenario, cohorts[b], n, host, tracker, passed, calls, slots);
      slots := slots + Repeats(scenario, cohorts[b], n);
      CohortsNext(done, scenario, cohorts, b, n);
      if blockers != [] {
        StoppedCohorts(p, host, done, scenario, cohorts, b + 1, n);
        return;
      }
    }
    assert cohorts[..|cohorts|] == cohorts;
  }

  /** The outer loop, one scenario after the other. */
  method CallScenarios(p: Policy, scenarios: seq<string>, cohorts: seq<string>, n: nat, host: nat -> HostResult, tracker: BudgetTracker)
    returns (blockers: seq<Blocker>, passed: seq<Passed<Slot>>, calls: nat)
    requires tracker.Current() == ZERO
    modifies tracker
    ensures Holds(blockers, passed, tracker, calls, Loop(p, host, Product(scenarios, cohorts, n), WithContext, Start()))
  {
    blockers, passed, calls := [], [], 0;
    ghost var slots := [];
    for a := 0 to |scenarios|
      invariant slots == Product(scenarios[..a], cohorts, n) && blockers == []
      invariant Holds([], passed, tracker, calls, Loop(p, host, slots, WithContext, Start()))
    {
      blockers, passed, calls := CallCohorts(p, scenarios[a], cohorts, n, host, tracker, passed, calls, slots);
      slots := slots + CohortSlots(scenarios[a], cohorts, n);
      assert scenarios[..a + 1][..a] == scenarios[..a];
      assert slots == Product(scenarios[..a + 1], cohorts, n);
      if blockers != [] {
        ProductPrefix(scenarios, cohorts, a + 1, n);
        StoppedIsFinal(p, host, slots, Product(scenarios, cohorts, n), WithContext);
        return;
      }
    }
    assert scenarios[..|scenarios|] == scenarios;
  }

  /** `run_live_calibration`: a pass is exactly the product of scenarios, cohorts and repetitions, in
      order and of the required length; in subscription and local modes the invocation cap never
      stops it. */
  method RunLiveCalibration(p: Policy, i: Inputs, f: Profile, runs: Option<int>, host: nat -> HostResult)
    returns (o: Outcome<Slot>, required: int)
    ensures var n := RequestedRuns(runs, f.minimumRuns);
            required == |f.scenarios| * (|f.cohorts| * n)
            && if Ready(p, i, required) && ProfileMatches(f, n)
               then n >= 1 && Shows(o, Loop(p, host, Product(f.scenarios, f.cohorts, n), WithContext, Start()))
               else o.blockers != [] && o.passed == [] && o.calls == 0
    ensures o.pass <==> o.blockers == []
    ensures o.pass ==> |o.passed| == required
                       && RequestedRuns(runs, f.minimumRuns) >= 1
                       && Items(o.passed) == Product(f.scenarios, f.cohorts, RequestedRuns(runs, f.minimumRuns))
    ensures o.calls > 0 && (p.mode.Subscription? || p.mode.Local?) ==> CapSilent(o.blockers)
  {
    var requested := RequestedRuns(runs, f.minimumRuns);
    required := |f.scenarios| * (|f.cohorts| * requested);
    var blockers := ValidateProfile(f, requested, i.extra);
    blockers := ValidateInputs(p, i, required, blockers);
    if blockers != [] {
      return Outcome(false, blockers, [], ZERO, 0), required;
    }
    var tracker := new BudgetTracker();
    var passed, calls;
    ghost var slots := Product(f.scenarios, f.cohorts, requested);
    ProductLength(f.scenarios, f.cohorts, requested);
    LoopPasses(p, host, slots, WithContext, Start());
    if p.mode.Subscription? || p.mode.Local? {
      AuthorisedCapNeverBlocks(p, i.allowLive, host, slots, WithContext);
    }
    blockers, passed, calls := CallScenarios(p, f.scenarios, f.cohorts, requested, host, tracker);
    assert blockers == [] ==> Items(passed) == slots;
    o := Outcome(blockers == [], blockers, passed, tracker.Current(), calls);
  }
}
