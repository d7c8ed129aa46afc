/** The coordinator: validating each worker's report and combining the two. */
module Parallel {
  import opened Wrappers
  import opened Suites
  import opened Rosters
  import opened Coverage

  const MAX_BYTES: nat := 8388608
  const IDENTITY: set<string> := {"GITHUB_SHA", "GITHUB_RUN_ID", "GITHUB_RUN_ATTEMPT", "GITHUB_JOB", "RUNNER_OS"}

  /** The coordinator's own environment variables. */
  type Environment = map<string, string>

  /** A worker's report: its file, and what it says.  An environment entry may be recorded as unset. */
  datatype WorkerReport = WorkerReport(
    isLink: bool, bytes: nat, schema: string, status: string, head: string, inventory: seq<Test>,
    loaderErrors: bool, interrupted: bool, environment: map<string, Option<string>>,
    cases: seq<CaseRecord>, coverage: Report, testsRun: nat,
    skips: nat, expectedFailures: nat, failures: nat, errors: nat, unexpectedSuccesses: nat)

  datatype Outcome = Outcome(exitCode: Option<int>, transportError: bool)

  datatype Failure =
    | UnsafeReport | WorkerFailed | IdentityDiffers | Unexplained | CoverageDiffers | TimingIncomplete
    | CombinedCoverageDiffers

  datatype Totals = Totals(
    testsRun: nat, skips: nat, expectedFailures: nat, failures: nat, errors: nat, unexpectedSuccesses: nat)

  datatype Verdict = Pass(totals: Totals) | Fail(failure: Failure)

  predicate WorkerClean(w: WorkerReport, r: Roster, o: Outcome, head: string) {
    && o.exitCode == Some(0) && !o.transportError
    && w.schema == "alk-ci-test-timings.v1" && w.status == "PASS" && w.head == head && w.inventory == r.selected
    && w.coverage.complete && !w.loaderErrors && !w.interrupted
    && w.errors == 0 && w.failures == 0 && w.unexpectedSuccesses == 0
  }

  /** Both ran in the same job: every identity variable is recorded, as the coordinator has it. */
  predicate SameIdentity(w: WorkerReport, env: Environment) {
    forall key <- IDENTITY :: key in w.environment && w.environment[key] == if key in env then Some(env[key]) else None
  }

  /** Every assigned test is a started case or an explained skip, and the counts agree. */
  predicate Recounted(w: WorkerReport, r: Roster) {
    && (forall u <- w.coverage.notStarted :: u.explained)
    && multiset(CaseIds(w.cases)) + multiset(UnstartedIds(w.coverage.notStarted)) == multiset(Ids(r.selected))
    && w.testsRun == |w.cases|
  }

  predicate TimedCase(c: CaseRecord) {
    c.completed && c.seconds.Some? && c.seconds.value >= 0.0
  }

  predicate WorkerValid(w: WorkerReport, r: Roster, o: Outcome, head: string, env: Environment) {
    && !w.isLink && w.bytes <= MAX_BYTES
    && WorkerClean(w, r, o, head) && SameIdentity(w, env)
    && Recounted(w, r)
    && (forall c <- w.cases :: TimedCase(c))
  }

  /** The counter holds exactly the multiplicities of `m`; a missing id counts zero. */
  ghost predicate Counts(c: Counter, m: multiset<string>) {
    forall id :: Get(c, id) == m[id]
  }

  method Increment(c: Counter, ghost m: multiset<string>, id: string) returns (c': Counter)
    requires Counts(c, m)
    ensures Counts(c', m + multiset{id})
  {
    c' := c[id := Get(c, id) + 1];
  }

  /** Adds a list of ids to a counter. */
  method Update(start: Counter, ghost m: multiset<string>, ids: seq<string>) returns (c: Counter)
    requires Counts(start, m)
    ensures Counts(c, m + multiset(ids))
  {
    c := start;
    for i := 0 to |ids|
      invariant Counts(c, m + multiset(ids[..i]))
    {
      c := Increment(c, m + multiset(ids[..i]), ids[i]);
      LastId(ids, i);
      assert m + multiset(ids[..i]) + multiset{ids[i]} == m + multiset(ids[..i + 1]);
    }
    assert ids[..|ids|] == ids;
  }

  /** Comparing counters compares what they count. */
  method SameCounts(a: Counter, ghost ma: multiset<string>, b: Counter, ghost mb: multiset<string>)
    returns (same: bool)
    requires Counts(a, ma) && Counts(b, mb)
    ensures same <==> ma == mb
  {
    same := (forall id | id in a :: Get(b, id) == a[id]) && (forall id | id in b :: Get(a, id) == b[id]);
    if same {
      forall id ensures ma[id] == mb[id] {
        assert Get(a, id) == Get(b, id);
      }
    }
  }

  /** Adds the skips a report explains; none as soon as one is unexplained. */
  method CountSkips(start: Counter, ghost m: multiset<string>, skipped: seq<Unstarted>) returns (c: Option<Counter>)
    requires Counts(start, m)
    ensures c.None? <==> exists u <- skipped :: !u.explained
    ensures c.Some? ==> Counts(c.value, m + multiset(UnstartedIds(skipped)))
  {
    var observed := start;
    ghost var ids := UnstartedIds(skipped);
    for i := 0 to |skipped|
      invariant forall k :: 0 <= k < i ==> skipped[k].explained
      invariant Counts(observed, m + multiset(ids[..i]))
    {
      if !skipped[i].explained { return None; }
      observed := Increment(observed, m + multiset(ids[..i]), skipped[i].id);
      LastId(ids, i);
      assert m + multiset(ids[..i]) + multiset{ids[i]} == m + multiset(ids[..i + 1]);
    }
    assert ids[..|skipped|] == ids;
    c := Some(observed);
  }

  /** The coordinator's own count of one report: none when a skip is unexplained, else whether
      started cases and explained skips make up the assigned ids. */
  method Recount(w: WorkerReport, r: Roster) returns (same: Option<bool>)
    ensures same.None? <==> exists u <- w.coverage.notStarted :: !u.explained
    ensures same.Some? ==>
      (same.value <==> multiset(CaseIds(w.cases)) + multiset(UnstartedIds(w.coverage.notStarted)) == multiset(Ids(r.selected)))
  {
    ghost var R, C := multiset(Ids(r.selected)), multiset(CaseIds(w.cases));
    var expected := Update(map[], multiset{}, Ids(r.selected));
    var started := Update(map[], multiset{}, CaseIds(w.cases));
    assert multiset{} + C == C && multiset{} + R == R;
    var observed := CountSkips(started, C, w.coverage.notStarted);
    if observed.None? { return None; }
    var equal := SameCounts(observed.value, C + multiset(UnstartedIds(w.coverage.notStarted)), expected, R);
    same := Some(equal);
  }

  /** `validate_worker`: the first check that fails, or none. */
  method ValidateWorker(w: WorkerReport, r: Roster, o: Outcome, head: string, env: Environment) returns (bad: Option<Failure>)
    ensures bad.None? <==> WorkerValid(w, r, o, head, env)
    ensures bad != Some(CombinedCoverageDiffers)
  {
    if w.isLink || w.bytes > MAX_BYTES { return Some(UnsafeReport); }
    if !WorkerClean(w, r, o, head) { return Some(WorkerFailed); }
    if !SameIdentity(w, env) { return Some(IdentityDiffers); }
    var same := Recount(w, r);
    if same.None? { return Some(Unexplained); }
    if !same.value || w.testsRun != |w.cases| { return Some(CoverageDiffers); }
    if exists c <- w.cases :: !TimedCase(c) { return Some(TimingIncomplete); }
    return None;
  }

  /** The coordinator's recount is implied: a report whose coverage was computed by `coverage` for
      the same inventory and is marked complete can never fail it. */
  lemma CompleteReportRecounts(w: WorkerReport, r: Roster, events: seq<Event>)
    requires IsReport(w.inventory, w.cases, events, w.testsRun, w.coverage)
    requires w.coverage.complete && w.inventory == r.selected
    ensures Recounted(w, r) && forall c <- w.cases :: c.completed
  {
    ReportConserves(w.inventory, w.cases, events, w.testsRun, w.coverage);
  }

  // ---------------------------------------------------------------- combining the workers

  function Plus(t: Totals, w: WorkerReport): Totals {
    Totals(t.testsRun + w.testsRun, t.skips + w.skips, t.expectedFailures + w.expectedFailures,
           t.failures + w.failures, t.errors + w.errors, t.unexpectedSuccesses + w.unexpectedSuccesses)
  }

  const ZERO := Totals(0, 0, 0, 0, 0, 0)

  function SelectedBy(s: Suite, indices: seq<int>): seq<Test>
    requires s.Group? && ValidIndices(indices, |s.children|)
  {
    InventoryAll(Select(s.children, indices))
  }

  lemma IdsConcat(a: seq<Test>, b: seq<Test>)
    ensures Ids(a + b) == Ids(a) + Ids(b)
  {
  }

  /** Split and recombine: the two selections hold exactly the discovered tests. */
  lemma SelectionsCover(s: Suite, discovered: seq<Test>)
    requires Partition(s, discovered).Some?
    ensures var Split(h, rest) := Partition(s, discovered).value;
            && s.Group? && ValidIndices([h], |s.children|) && ValidIndices(rest, |s.children|)
            && multiset(Ids(SelectedBy(s, [h]))) + multiset(Ids(SelectedBy(s, rest))) == multiset(Ids(discovered))
            && |SelectedBy(s, [h])| + |SelectedBy(s, rest)| == |discovered|
  {
    SplitShape(s, discovered);
    var h := Partition(s, discovered).value.hot;
    var before, hot, after := InventoryAll(s.children[..h]), Inventory(s.children[h]), InventoryAll(s.children[h + 1..]);
    CutOut(before, hot, after);
  }

  lemma CutOut(before: seq<Test>, hot: seq<Test>, after: seq<Test>)
    ensures multiset(Ids(hot)) + multiset(Ids(before + after)) == multiset(Ids(before + hot + after))
    ensures |hot| + |before + after| == |before + hot + after|
  {
    IdsConcat(before + hot, after);
    IdsConcat(before, hot);
    IdsConcat(before, after);
  }

  function Summed(workers: seq<WorkerReport>, k: nat): Totals
    requires k <= |workers|
  {
    if k == 0 then ZERO else Plus(Summed(workers, k - 1), workers[k - 1])
  }

  /** The two rosters the coordinator writes for a split. */
  function MakeRosters(s: Suite, discovered: seq<Test>, head: string): (rs: seq<Roster>)
    requires Partition(s, discovered).Some?
    ensures |rs| == 2
  {
    var split := Partition(s, discovered).value;
    assert s.Group? && ValidIndices([split.hot], |s.children|) && ValidIndices(split.rest, |s.children|) by {
      SplitShape(s, discovered);
    }
    [MakeRoster(s, discovered, head, [split.hot]), MakeRoster(s, discovered, head, split.rest)]
  }

  /** The ids selected by the first `k` rosters. */
  ghost function Covered(rs: seq<Roster>, k: nat): multiset<string>
    requires k <= |rs|
  {
    if k == 0 then multiset{} else Covered(rs, k - 1) + multiset(Ids(rs[k - 1].selected))
  }

  /** The final combined-coverage check of `execute` can never fail for the rosters of a split. */
  lemma CoveredByBoth(s: Suite, discovered: seq<Test>, head: string)
    requires Partition(s, discovered).Some?
    ensures Covered(MakeRosters(s, discovered, head), 2) == multiset(Ids(discovered))
  {
    SelectionsCover(s, discovered);
    var rs := MakeRosters(s, discovered, head);
    assert Covered(rs, 1) == multiset{} + multiset(Ids(rs[0].selected));
  }

  /** The first `k` reports validate. */
  predicate ValidUpTo(rs: seq<Roster>, workers: seq<WorkerReport>, outcomes: seq<Outcome>, head: string, env: Environment, k: nat)
    requires k <= |rs| && k <= |workers| && k <= |outcomes|
  {
    k == 0 || (ValidUpTo(rs, workers, outcomes, head, env, k - 1) && WorkerValid(workers[k - 1], rs[k - 1], outcomes[k - 1], head, env))
  }

  lemma {:induction false} OneInvalid(
      rs: seq<Roster>, workers: seq<WorkerReport>, outcomes: seq<Outcome>, head: string, env: Environment, k: nat, n: nat)
    requires k < n && n <= |rs| && n <= |workers| && n <= |outcomes|
    requires !WorkerValid(workers[k], rs[k], outcomes[k], head, env)
    ensures !ValidUpTo(rs, workers, outcomes, head, env, n)
  {
    if k < n - 1 {
      OneInvalid(rs, workers, outcomes, head, env, k, n - 1);
    }
  }

  /** The combination loop of `execute`, once both workers have ended: it passes exactly when every
      report validates and the validated inventories add up to the discovered suite. */
  method Combine(discovered: seq<Test>, head: string, rs: seq<Roster>, workers: seq<WorkerReport>, outcomes: seq<Outcome>, env: Environment)
    returns (v: Verdict)
    requires |rs| == |workers| == |outcomes|
    ensures v.Pass? <==>
            ValidUpTo(rs, workers, outcomes, head, env, |rs|) && Covered(rs, |rs|) == multiset(Ids(discovered))
    ensures v.Pass? ==> v.totals == Summed(workers, |rs|)
    ensures v == Fail(CombinedCoverageDiffers) <==>
            ValidUpTo(rs, workers, outcomes, head, env, |rs|) && Covered(rs, |rs|) != multiset(Ids(discovered))
  {
    var covered: Counter := map[];
    var totals := ZERO;
    for k := 0 to |rs|
      invariant ValidUpTo(rs, workers, outcomes, head, env, k)
      invariant Counts(covered, Covered(rs, k))
      invariant totals == Summed(workers, k)
    {
      var bad := ValidateWorker(workers[k], rs[k], outcomes[k], head, env);
      if bad.Some? {
        OneInvalid(rs, workers, outcomes, head, env, k, |rs|);
        return Fail(bad.value);
      }
      covered := Update(covered, Covered(rs, k), Ids(workers[k].inventory));
      totals := Plus(totals, workers[k]);
    }
    var all := Update(map[], multiset{}, Ids(discovered));
    assert multiset{} + multiset(Ids(discovered)) == multiset(Ids(discovered));
    var same := SameCounts(covered, Covered(rs, |rs|), all, multiset(Ids(discovered)));
    v := if same then Pass(totals) else Fail(CombinedCoverageDiffers);
  }

  /** A parallel PASS conserves the suite: the cases started by the two workers together with
      their explained skips are exactly the discovered tests, and the totals add up to them. */
  lemma PassConservesSuite(s: Suite, discovered: seq<Test>, head: string, workers: seq<WorkerReport>, outcomes: seq<Outcome>, env: Environment)
    requires Partition(s, discovered).Some? && |workers| == 2 && |outcomes| == 2
    requires ValidUpTo(MakeRosters(s, discovered, head), workers, outcomes, head, env, 2)
    ensures var a, b := workers[0], workers[1];
            && multiset(CaseIds(a.cases)) + multiset(UnstartedIds(a.coverage.notStarted))
               + multiset(CaseIds(b.cases)) + multiset(UnstartedIds(b.coverage.notStarted)) == multiset(Ids(discovered))
            && Summed(workers, 2).testsRun + |a.coverage.notStarted| + |b.coverage.notStarted| == |discovered|
            && Summed(workers, 2).failures == 0 && Summed(workers, 2).errors == 0
            && (forall c :: c in a.cases || c in b.cases ==> TimedCase(c))
  {
    SelectionsCover(s, discovered);
    var rs := MakeRosters(s, discovered, head);
    RecountedSize(workers[0], rs[0]);
    RecountedSize(workers[1], rs[1]);
    assert Summed(workers, 1) == Plus(ZERO, workers[0]);
  }

  lemma RecountedSize(w: WorkerReport, r: Roster)
    requires Recounted(w, r)
    ensures w.testsRun + |w.coverage.notStarted| == |r.selected|
  {
    var C, U := multiset(CaseIds(w.cases)), multiset(UnstartedIds(w.coverage.notStarted));
    assert |C + U| == |C| + |U|;
    assert |multiset(Ids(r.selected))| == |Ids(r.selected)|;
  }
}
