/** Measuring one operation: warm-ups, samples and their summary. */
module Measurement {
  import opened Wrappers
  import opened OrderStatistics

  /** What a lifecycle worker reports about its own run. */
  datatype Lifecycle = Lifecycle(workload: string, operation: real, setup: real, overhead: real)

  /** One invocation.  Its status is PASS exactly when it has no blockers. */
  datatype Sample = Sample(wall: real, rss: Option<int>, lifecycle: Option<Lifecycle>, blockers: seq<string>)

  /** The answers of the invocations, numbered from the first warm-up on. */
  type Invocations = nat -> Sample

  predicate Passed(s: Sample) {
    s.blockers == []
  }

  function Outcomes(invoke: Invocations, from: nat, count: nat): (r: seq<Sample>)
    ensures |r| == count && forall k :: 0 <= k < count ==> r[k] == invoke(from + k)
  {
    seq(count, k requires 0 <= k < count => invoke(from + k))
  }

  /** Every invocation from `from` to `to` passes. */
  ghost predicate AllPass(invoke: Invocations, from: nat, to: nat) {
    forall k :: from <= k < to ==> Passed(invoke(k))
  }

  /** The invocations up to and including the first that fails, at most `limit`. */
  ghost predicate UntilFailure(invoke: Invocations, from: nat, limit: nat, values: seq<Sample>) {
    && |values| <= limit && values == Outcomes(invoke, from, |values|)
    && (forall k :: 0 <= k < |values| - 1 ==> Passed(values[k]))
    && (|values| < limit ==> values != [] && !Passed(values[|values| - 1]))
  }

  /** Either sampling loop. */
  method InvokeUntilFailure(invoke: Invocations, from: nat, limit: nat) returns (values: seq<Sample>, blockers: seq<string>)
    ensures UntilFailure(invoke, from, limit, values)
    ensures blockers == [] <==> AllPass(invoke, from, from + limit)
  {
    values, blockers := [], [];
    for k := 0 to limit
      invariant values == Outcomes(invoke, from, k) && blockers == []
      invariant AllPass(invoke, from, from + k)
    {
      var measured := invoke(from + k);
      values := values + [measured];
      if !Passed(measured) {
        blockers := blockers + measured.blockers;
        break;
      }
    }
  }

  /** Median and p95, or nothing when there is no value. */
  datatype Spread = Spread(median: real, p95: real)

  function SpreadOf(xs: seq<real>): Option<Spread> {
    if xs == [] then None else Some(Spread(Median(xs), P95(xs)))
  }

  datatype Report = Report(
    pass: bool, warmups: seq<Sample>, samples: seq<Sample>, workload: Option<string>,
    wall: Option<Spread>, maxRss: Option<int>,
    operation: Option<Spread>, setup: Option<Spread>, overhead: Option<Spread>)

  function Lifecycles(samples: seq<Sample>): seq<Lifecycle> {
    if samples == [] then []
    else
      Lifecycles(samples[..|samples| - 1])
      + (if samples[|samples| - 1].lifecycle.Some? then [samples[|samples| - 1].lifecycle.value] else [])
  }

  function Walls(samples: seq<Sample>): (r: seq<real>)
    ensures |r| == |samples| && forall k :: 0 <= k < |samples| ==> r[k] == samples[k].wall
  {
    seq(|samples|, k requires 0 <= k < |samples| => samples[k].wall)
  }

  function Times(ls: seq<Lifecycle>, time: Lifecycle -> real): (r: seq<real>)
    ensures |r| == |ls| && forall k :: 0 <= k < |ls| ==> r[k] == time(ls[k])
  {
    seq(|ls|, k requires 0 <= k < |ls| => time(ls[k]))
  }

  function MaxRss(samples: seq<Sample>): (m: Option<int>)
    ensures m.None? <==> forall k :: 0 <= k < |samples| ==> samples[k].rss.None?
    ensures m.Some? ==> (exists k :: 0 <= k < |samples| && samples[k].rss == m)
                        && forall k :: 0 <= k < |samples| && samples[k].rss.Some? ==> samples[k].rss.value <= m.value
  {
    if samples == [] then None
    else
      var before, last := MaxRss(samples[..|samples| - 1]), samples[|samples| - 1].rss;
      if last.None? || (before.Some? && before.value >= last.value) then before else last
  }

  /** All lifecycle workers measured the same workload. */
  predicate SameWorkload(samples: seq<Sample>) {
    var ls := Lifecycles(samples);
    forall k :: 0 <= k < |ls| ==> ls[k].workload == ls[0].workload
  }

  lemma CompleteWhenPassing(invoke: Invocations, from: nat, limit: nat, values: seq<Sample>)
    requires UntilFailure(invoke, from, limit, values) && AllPass(invoke, from, from + limit)
    ensures values == Outcomes(invoke, from, limit)
  {
    assert forall k :: 0 <= k < |values| ==> Passed(values[k]);
  }

  lemma Continued(invoke: Invocations, warmups: nat, samples: nat, warm: seq<Sample>, values: seq<Sample>)
    requires UntilFailure(invoke, 0, warmups, warm) && AllPass(invoke, 0, warmups)
    requires UntilFailure(invoke, warmups, samples, values)
    ensures |warm| == warmups && UntilFailure(invoke, 0, warmups + samples, warm + values)
  {
    CompleteWhenPassing(invoke, 0, warmups, warm);
    OutcomesJoin(invoke, warmups, |values|);
    var all := warm + values;
    forall k | 0 <= k < |all| - 1 ensures Passed(all[k]) {
      assert k < warmups ==> all[k] == warm[k] == invoke(0 + k);
      assert k >= warmups ==> all[k] == values[k - warmups];
    }
  }

  lemma OutcomesJoin(invoke: Invocations, m: nat, n: nat)
    ensures Outcomes(invoke, 0, m) + Outcomes(invoke, m, n) == Outcomes(invoke, 0, m + n)
  {
  }

  lemma Failed(invoke: Invocations, warmups: nat, samples: nat, warm: seq<Sample>)
    requires UntilFailure(invoke, 0, warmups, warm) && !AllPass(invoke, 0, warmups)
    ensures UntilFailure(invoke, 0, warmups + samples, warm)
  {
    if |warm| == warmups {
      var k :| 0 <= k < warmups && !Passed(invoke(k));
      assert warm[k] == invoke(k);
    }
  }

  /** The warm-ups, and the samples when no warm-up failed. */
  method InvokeAll(invoke: Invocations, warmups: nat, samples: nat)
    returns (warm: seq<Sample>, values: seq<Sample>, blockers: seq<string>)
    ensures UntilFailure(invoke, 0, warmups + samples, warm + values)
    ensures |warm| <= warmups && |values| <= samples && (values != [] ==> |warm| == warmups)
    ensures blockers == [] <==> AllPass(invoke, 0, warmups + samples)
    ensures blockers == [] ==> values == Outcomes(invoke, warmups, samples)
  {
    warm, blockers := InvokeUntilFailure(invoke, 0, warmups);
    values := [];
    if blockers == [] {
      values, blockers := InvokeUntilFailure(invoke, warmups, samples);
      Continued(invoke, warmups, samples, warm, values);
      if blockers == [] {
        CompleteWhenPassing(invoke, warmups, samples, values);
      }
    } else {
      Failed(invoke, warmups, samples, warm);
      assert warm + values == warm;
    }
  }

  /** Nothing for no values; otherwise median, p95 and the largest value, in this order. */
  ghost predicate Ordered(s: Option<Spread>, xs: seq<real>) {
    if xs == [] then s.None?
    else
      && s.Some? && s.value.median <= s.value.p95 && s.value.p95 in xs
      && exists m :: m in xs && s.value.p95 <= m && forall y :: y in xs ==> y <= m
  }

  lemma SpreadIsOrdered(xs: seq<real>)
    ensures Ordered(SpreadOf(xs), xs)
  {
    if xs != [] {
      P95IsNearestRank(xs);
    }
  }

  /** `_measure_operation`: it stops at the first invocation that fails, and passes exactly when none of
      the planned ones fails and the workload never changed.  Every summary it reports is ordered. */
  method MeasureOperation(invoke: Invocations, warmups: nat, samples: nat) returns (r: Report)
    ensures UntilFailure(invoke, 0, warmups + samples, r.warmups + r.samples)
    ensures |r.warmups| <= warmups && (r.samples != [] ==> |r.warmups| == warmups)
    ensures r.pass <==> AllPass(invoke, 0, warmups + samples) && SameWorkload(Outcomes(invoke, warmups, samples))
    ensures r.pass ==> r.samples == Outcomes(invoke, warmups, samples)
    ensures r.wall == SpreadOf(Walls(r.samples)) && r.maxRss == MaxRss(r.samples)
    ensures var ls := Lifecycles(r.samples);
            && r.workload == (if ls == [] then None else Some(ls[0].workload))
            && r.operation == SpreadOf(Times(ls, (l: Lifecycle) => l.operation))
            && r.setup == SpreadOf(Times(ls, (l: Lifecycle) => l.setup))
            && r.overhead == SpreadOf(Times(ls, (l: Lifecycle) => l.overhead))
    ensures var ls := Lifecycles(r.samples);
            && Ordered(r.wall, Walls(r.samples))
            && Ordered(r.operation, Times(ls, (l: Lifecycle) => l.operation))
            && Ordered(r.setup, Times(ls, (l: Lifecycle) => l.setup))
            && Ordered(r.overhead, Times(ls, (l: Lifecycle) => l.overhead))
  {
    var warm, values, blockers := InvokeAll(invoke, warmups, samples);
    var ls := Lifecycles(values);
    if !SameWorkload(values) {
      blockers := blockers + ["performance-comparability-workload-changed"];
    }
    SpreadIsOrdered(Walls(values));
    SpreadIsOrdered(Times(ls, (l: Lifecycle) => l.operation));
    SpreadIsOrdered(Times(ls, (l: Lifecycle) => l.setup));
    SpreadIsOrdered(Times(ls, (l: Lifecycle) => l.overhead));
    r := Report(
      blockers == [] && |values| == samples, warm, values, if ls == [] then None else Some(ls[0].workload),
      SpreadOf(Walls(values)), MaxRss(values),
      SpreadOf(Times(ls, (l: Lifecycle) => l.operation)),
      SpreadOf(Times(ls, (l: Lifecycle) => l.setup)),
      SpreadOf(Times(ls, (l: Lifecycle) => l.overhead)));
  }
}
