/** The verdict on three alternating baseline/candidate pairs, and its robust variant. */
module Verdicts {
  import opened Wrappers
  import opened OrderStatistics

  datatype Side = Baseline | Candidate

  /** `join` stands for everything that must agree between samples. */
  datatype Sample = Sample(side: Side, join: string, wall: real)

  const ORDER := [Baseline, Candidate, Candidate, Baseline, Baseline, Candidate]
  const TARGET: real := 0.80

  datatype Error = OrderDiffers | JoinDiffers | DivisionByZero | InvalidWall

  datatype Comparison = Comparison(
    improved: bool, baseline: real, candidate: real, ratio: real, pairRatios: seq<real>, medianPairRatio: real)

  predicate InOrder(ss: seq<Sample>) {
    |ss| == 6 && forall i :: 0 <= i < 6 ==> ss[i].side == ORDER[i]
  }

  function Walls(ss: seq<Sample>, side: Side): seq<real> {
    if ss == [] then []
    else if ss[0].side == side then [ss[0].wall] + Walls(ss[1..], side)
    else Walls(ss[1..], side)
  }

  lemma {:induction false} WallsInOrder(ss: seq<Sample>)
    requires InOrder(ss)
    ensures Walls(ss, Baseline) == [ss[0].wall, ss[3].wall, ss[4].wall]
    ensures Walls(ss, Candidate) == [ss[1].wall, ss[2].wall, ss[5].wall]
  {
    var t1, t2, t3, t4, t5 := ss[1..], ss[2..], ss[3..], ss[4..], ss[5..];
    assert t1[1..] == t2 && t2[1..] == t3 && t3[1..] == t4 && t4[1..] == t5 && t5[1..] == [];
    assert t1[0] == ss[1] && t2[0] == ss[2] && t3[0] == ss[3] && t4[0] == ss[4] && t5[0] == ss[5];
    assert t5 == [ss[5]] && Walls([], Candidate) == [] && Walls([], Baseline) == [];
    assert Walls(t5, Baseline) == [] && Walls(t5, Candidate) == [ss[5].wall] + [];
    assert Walls(t4, Baseline) == [ss[4].wall] && Walls(t4, Candidate) == [ss[5].wall];
    assert Walls(t3, Baseline) == [ss[3].wall, ss[4].wall] && Walls(t3, Candidate) == [ss[5].wall];
    assert Walls(t2, Baseline) == [ss[3].wall, ss[4].wall] && Walls(t2, Candidate) == [ss[2].wall, ss[5].wall];
    assert Walls(t1, Baseline) == [ss[3].wall, ss[4].wall] && Walls(t1, Candidate) == [ss[1].wall, ss[2].wall, ss[5].wall];
  }

  /** `compare_samples`. */
  function Compare(ss: seq<Sample>): Result<Comparison, Error> {
    if !InOrder(ss) then Refused(OrderDiffers)
    else if exists s <- ss :: s.join != ss[0].join then Refused(JoinDiffers)
    else
      WallsInOrder(ss);
      var base, cand := Walls(ss, Baseline), Walls(ss, Candidate);
      if (exists b <- base :: b == 0.0) || Median(base) == 0.0 then Refused(DivisionByZero)
      else
        assert base[0] in base && base[1] in base && base[2] in base;
        var pairs := [cand[0] / base[0], cand[1] / base[1], cand[2] / base[2]];
        var b, c := Median(base), Median(cand);
        Ok(Comparison(c / b <= TARGET, b, c, c / b, pairs, Median(pairs)))
  }

  predicate PositiveBaselines(ss: seq<Sample>) {
    forall i :: 0 <= i < |ss| && ss[i].side == Baseline ==> ss[i].wall > 0.0
  }

  lemma PositiveMedian(xs: seq<real>)
    requires xs != [] && forall i :: 0 <= i < |xs| ==> xs[i] > 0.0
    ensures Median(xs) > 0.0
  {
    SortedMembers(xs);
    var s := Sorted(xs);
    assert s[|xs| / 2] in s;
    if |xs| % 2 == 0 {
      assert s[|xs| / 2 - 1] in s;
    }
  }

  lemma DivideBy(c: real, b: real, r: real)
    requires b > 0.0
    ensures c / b <= r <==> c <= r * b
    ensures (c / b) * b == c
  {
  }

  predicate Ratios(c: seq<real>, b: seq<real>, ps: seq<real>) {
    |c| == |b| == |ps| && forall i :: 0 <= i < |c| ==> b[i] > 0.0 && ps[i] == c[i] / b[i]
  }

  lemma RatiosScale(c: seq<real>, b: seq<real>, ps: seq<real>, r: real)
    requires Ratios(c, b, ps)
    ensures (forall p <- ps :: p <= r) <==> forall i :: 0 <= i < |c| ==> c[i] <= r * b[i]
    ensures (forall p <- ps :: p > r) <==> forall i :: 0 <= i < |c| ==> c[i] > r * b[i]
  {
    forall i | 0 <= i < |c|
      ensures ps[i] in ps && (ps[i] <= r <==> c[i] <= r * b[i])
    {
      DivideBy(c[i], b[i], r);
    }
  }

  lemma CompareParts(ss: seq<Sample>)
    requires Compare(ss).Ok? && PositiveBaselines(ss)
    ensures var v := Compare(ss).value;
            var base, cand := Walls(ss, Baseline), Walls(ss, Candidate);
            && |base| == 3 && |cand| == 3 && Ratios(cand, base, v.pairRatios)
            && v.baseline == Median(base) > 0.0 && v.candidate == Median(cand)
            && v.ratio == v.candidate / v.baseline && (v.improved <==> v.ratio <= TARGET)
  {
    WallsInOrder(ss);
    PositiveMedian(Walls(ss, Baseline));
  }

  /** The pair ratios bound the verdict: when every pair ratio is at most `r`, so is the ratio of
      the medians, and when every pair ratio exceeds `r`, so does the ratio of the medians. */
  lemma PairsBoundRatio(ss: seq<Sample>, r: real)
    requires Compare(ss).Ok? && PositiveBaselines(ss) && r > 0.0
    ensures (forall p <- Compare(ss).value.pairRatios :: p <= r) ==> Compare(ss).value.ratio <= r
    ensures (forall p <- Compare(ss).value.pairRatios :: p > r) ==> Compare(ss).value.ratio > r
  {
    CompareParts(ss);
    var base, cand := Walls(ss, Baseline), Walls(ss, Candidate);
    var v := Compare(ss).value;
    DivideBy(v.candidate, v.baseline, r);
    RatiosScale(cand, base, v.pairRatios, r);
    if forall p <- v.pairRatios :: p <= r {
      MedianScales(cand, base, r);
    }
    if forall p <- v.pairRatios :: p > r {
      MedianExceeds(cand, base, r);
    }
  }

  /** Unanimous pairs decide: all at most 0.80 must be reported as an improvement, all above 0.80
      must not. */
  lemma UnanimousPairsDecide(ss: seq<Sample>)
    requires Compare(ss).Ok? && PositiveBaselines(ss)
    ensures (forall p <- Compare(ss).value.pairRatios :: p <= TARGET) ==> Compare(ss).value.improved
    ensures (forall p <- Compare(ss).value.pairRatios :: p > TARGET) ==> !Compare(ss).value.improved
  {
    PairsBoundRatio(ss, TARGET);
  }

  // ---------------------------------------------------------------- the robust verdict

  function Abs(x: real): real {
    if x < 0.0 then -x else x
  }

  function Deviations(xs: seq<real>, m: real): (ds: seq<real>)
    ensures |ds| == |xs| && forall i :: 0 <= i < |xs| ==> ds[i] == Abs(xs[i] - m)
  {
    seq(|xs|, i requires 0 <= i < |xs| => Abs(xs[i] - m))
  }

  function Max(x: real, y: real): real {
    if x >= y then x else y
  }

  datatype Robust = Robust(improved: bool, baseline: real, candidate: real, mad: real, gain: real, threshold: real)

  function Threshold(mad: real, median: real): real
    requires median != 0.0
  {
    Max(0.05, mad / median)
  }

  function Judge(candidate: real, median: real, mad: real): Robust
    requires median != 0.0
  {
    var t := Threshold(mad, median);
    Robust(candidate < median * (1.0 - t), median, candidate, mad, 1.0 - candidate / median, t)
  }

  /** `release234_comparison`: the candidate median must fall below the baseline median by more
      than the larger of five percent and the relative median absolute deviation. */
  function RobustCompare(ss: seq<Sample>): Result<Robust, Error> {
    if Compare(ss).Refused? then Refused(Compare(ss).error)
    else
      WallsInOrder(ss);
      var base := Walls(ss, Baseline);
      Ok(Judge(Median(Walls(ss, Candidate)), Median(base), Median(Deviations(base, Median(base)))))
  }

  lemma GainAgainstThreshold(c: real, b: real, t: real)
    requires b > 0.0
    ensures c < b * (1.0 - t) <==> 1.0 - c / b > t
  {
    LessThanQuotient(c, b, 1.0 - t);
  }

  lemma LessThanQuotient(c: real, b: real, x: real)
    requires b > 0.0
    ensures c < b * x <==> c / b < x
  {
    var q := c / b;
    assert c == q * b;
    if q < x {
      assert q * b < x * b;
    } else {
      assert q * b >= x * b;
    }
  }

  lemma BothMargins(b: real, mad: real, t: real)
    requires b > 0.0 && t >= 0.05 && t >= mad / b
    ensures b * (1.0 - t) <= b - mad && b * (1.0 - t) <= 0.95 * b
  {
    var q := mad / b;
    assert q * b == mad;
    assert t * b >= q * b && t * b >= 0.05 * b;
    assert b * (1.0 - t) == b - t * b;
  }

  lemma JudgeExactly(c: real, b: real, mad: real)
    requires b > 0.0
    ensures var v := Judge(c, b, mad);
            && (v.improved <==> v.gain > Threshold(mad, b))
            && (v.improved ==> c < b - mad && c < 0.95 * b)
  {
    GainAgainstThreshold(c, b, Threshold(mad, b));
    BothMargins(b, mad, Threshold(mad, b));
  }

  /** Two positions of a list that hold values at or below `v`. */
  lemma {:induction false} TwoAtMost(xs: seq<real>, v: real) returns (i: nat, j: nat)
    requires AtMost(xs, v) >= 2
    ensures i < j < |xs| && xs[i] <= v && xs[j] <= v
  {
    if xs[0] <= v {
      j := OneAtMost(xs[1..], v);
      i, j := 0, j + 1;
    } else {
      i, j := TwoAtMost(xs[1..], v);
      i, j := i + 1, j + 1;
    }
  }

  lemma {:induction false} OneAtMost(xs: seq<real>, v: real) returns (i: nat)
    requires AtMost(xs, v) >= 1
    ensures i < |xs| && xs[i] <= v
  {
    if xs[0] <= v {
      i := 0;
    } else {
      i := OneAtMost(xs[1..], v);
      i := i + 1;
    }
  }

  lemma RobustParts(ss: seq<Sample>)
    requires RobustCompare(ss).Ok? && PositiveBaselines(ss)
    ensures var base, cand := Walls(ss, Baseline), Walls(ss, Candidate);
            && |base| == 3 && |cand| == 3 && Median(base) > 0.0
            && RobustCompare(ss).value == Judge(Median(cand), Median(base), Median(Deviations(base, Median(base))))
  {
    CompareParts(ss);
  }

  /** The robust verdict reports an improvement exactly when the relative gain strictly exceeds the
      larger of five percent and MAD over median. */
  lemma RobustExactly(ss: seq<Sample>)
    requires RobustCompare(ss).Ok? && PositiveBaselines(ss)
    ensures var v := RobustCompare(ss).value;
            && v.baseline > 0.0
            && (v.improved <==> v.gain > Threshold(v.mad, v.baseline))
            && (v.improved ==> v.candidate < v.baseline - v.mad && v.candidate < 0.95 * v.baseline)
  {
    RobustParts(ss);
    var v := RobustCompare(ss).value;
    JudgeExactly(v.candidate, v.baseline, v.mad);
  }

  /** An improvement is visible in the samples: two candidate samples each lie strictly below two
      baseline samples that are themselves within one MAD of the baseline median. */
  lemma {:induction false} ImprovementIsVisible(ss: seq<Sample>) returns (i: nat, j: nat, p: nat, q: nat)
    requires RobustCompare(ss).Ok? && PositiveBaselines(ss) && RobustCompare(ss).value.improved
    ensures i < j < 3 && p < q < 3 && |Walls(ss, Candidate)| == 3 && |Walls(ss, Baseline)| == 3
    ensures var c, b, v := Walls(ss, Candidate), Walls(ss, Baseline), RobustCompare(ss).value;
            && c[i] < b[p] && c[i] < b[q] && c[j] < b[p] && c[j] < b[q]
            && Abs(b[p] - v.baseline) <= v.mad && Abs(b[q] - v.baseline) <= v.mad
  {
    RobustParts(ss);
    RobustExactly(ss);
    var c, b, v := Walls(ss, Candidate), Walls(ss, Baseline), RobustCompare(ss).value;
    RankIsCount(c, 1, v.candidate);
    i, j := TwoAtMost(c, v.candidate);
    var ds := Deviations(b, v.baseline);
    RankIsCount(ds, 1, v.mad);
    p, q := TwoAtMost(ds, v.mad);
  }

  // ---------------------------------------------------------------- the first pair

  datatype Prospect = JoinMismatch | Eligible | Incomplete | ObservedOnly

  /** `viability_prefix`, on the first baseline/candidate pair. */
  function Viability(ss: seq<Sample>, ratioStop: bool): Result<Prospect, Error> {
    if |ss| != 2 || !ss[0].side.Baseline? || !ss[1].side.Candidate? then Refused(OrderDiffers)
    else if ss[0].join != ss[1].join then Ok(JoinMismatch)
    else if ss[0].wall <= 0.0 || ss[1].wall <= 0.0 then Refused(InvalidWall)
    else if !ratioStop then Ok(ObservedOnly)
    else if ss[1].wall / ss[0].wall <= TARGET then Ok(Eligible)
    else Ok(Incomplete)
  }

  lemma MedianOfEquals(x: real, y: real)
    ensures Median([x, y, y]) == y
  {
    var xs := [x, y, y];
    assert AtMost([], y) == 0 && Below([], y) == 0;
    assert [y][1..] == [] && AtMost([y], y) == 1 && Below([y], y) == 0;
    assert [y, y][1..] == [y] && AtMost([y, y], y) == 2 && Below([y, y], y) == 0;
    assert xs[1..] == [y, y] && AtMost(xs, y) >= 2 && Below(xs, y) <= 1;
    RankIsCount(xs, 1, y);
  }

  /** The pair, followed by two baseline samples of one second and two candidate samples of `c`. */
  function Completed(ss: seq<Sample>, c: real): seq<Sample>
    requires |ss| == 2
  {
    var j := ss[0].join;
    ss + [Sample(Candidate, j, c), Sample(Baseline, j, 1.0), Sample(Baseline, j, 1.0), Sample(Candidate, j, c)]
  }

  lemma CompletedVerdict(ss: seq<Sample>, c: real)
    requires Viability(ss, false) == Ok(ObservedOnly) && c > 0.0
    ensures Compare(Completed(ss, c)).Ok? && PositiveBaselines(Completed(ss, c))
    ensures Compare(Completed(ss, c)).value.improved <==> c <= TARGET
  {
    var all := Completed(ss, c);
    assert InOrder(all);
    WallsInOrder(all);
    MedianOfEquals(ss[0].wall, 1.0);
    MedianOfEquals(ss[1].wall, c);
  }

  /** The first pair permits continuation only: whatever it measured, six-sample runs that start with
      it reach either verdict. */
  lemma PrefixDecidesNothing(ss: seq<Sample>, ratioStop: bool)
    requires Viability(ss, ratioStop).Ok? && !Viability(ss, ratioStop).value.JoinMismatch?
    ensures exists all :: ss <= all && Compare(all).Ok? && PositiveBaselines(all) && Compare(all).value.improved
    ensures exists all :: ss <= all && Compare(all).Ok? && PositiveBaselines(all) && !Compare(all).value.improved
  {
    CompletedVerdict(ss, 0.5);
    CompletedVerdict(ss, 1.0);
    assert ss <= Completed(ss, 0.5) && ss <= Completed(ss, 1.0);
  }
}
