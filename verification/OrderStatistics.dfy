/** Sorting, medians and nearest-rank percentiles of real samples, characterised by counting. */
module OrderStatistics {
  function Insert(x: real, xs: seq<real>): seq<real> {
    if xs == [] || x <= xs[0] then [x] + xs else [xs[0]] + Insert(x, xs[1..])
  }

  function Sorted(xs: seq<real>): (s: seq<real>)
    ensures |s| == |xs|
  {
    if xs == [] then [] else InsertLength(xs[0], Sorted(xs[1..])); Insert(xs[0], Sorted(xs[1..]))
  }

  lemma {:induction false} InsertLength(x: real, xs: seq<real>)
    ensures |Insert(x, xs)| == |xs| + 1
  {
    if xs != [] && x > xs[0] {
      InsertLength(x, xs[1..]);
    }
  }

  /** How many samples are at or below `v`. */
  function AtMost(xs: seq<real>, v: real): nat {
    if xs == [] then 0 else AtMost(xs[1..], v) + if xs[0] <= v then 1 else 0
  }

  /** How many samples are strictly below `v`. */
  function Below(xs: seq<real>, v: real): nat {
    if xs == [] then 0 else Below(xs[1..], v) + if xs[0] < v then 1 else 0
  }

  predicate Ascending(xs: seq<real>) {
    |xs| > 1 ==> xs[0] <= xs[1] && Ascending(xs[1..])
  }

  lemma {:induction false} AscendingFrom(s: seq<real>, i: nat, j: nat)
    requires Ascending(s) && i <= j < |s|
    ensures s[i] <= s[j]
  {
    if i > 0 {
      AscendingFrom(s[1..], i - 1, j - 1);
    } else if j > 0 {
      AscendingFrom(s[1..], 0, j - 1);
    }
  }

  lemma {:induction false} InsertCounts(x: real, xs: seq<real>, v: real)
    ensures AtMost(Insert(x, xs), v) == AtMost(xs, v) + if x <= v then 1 else 0
    ensures Below(Insert(x, xs), v) == Below(xs, v) + if x < v then 1 else 0
  {
    if xs == [] || x <= xs[0] {
      assert ([x] + xs)[1..] == xs;
    } else {
      InsertCounts(x, xs[1..], v);
      assert ([xs[0]] + Insert(x, xs[1..]))[1..] == Insert(x, xs[1..]);
    }
  }

  lemma {:induction false} InsertAscends(x: real, xs: seq<real>)
    requires Ascending(xs)
    ensures Ascending(Insert(x, xs))
    ensures Insert(x, xs)[0] == x || (xs != [] && Insert(x, xs)[0] == xs[0])
  {
    if xs != [] && x > xs[0] {
      InsertAscends(x, xs[1..]);
      assert Insert(x, xs)[1..] == Insert(x, xs[1..]);
    } else {
      assert Insert(x, xs)[1..] == xs;
    }
  }

  lemma {:induction false} SortedAscends(xs: seq<real>)
    ensures Ascending(Sorted(xs))
  {
    if xs != [] {
      SortedAscends(xs[1..]);
      InsertAscends(xs[0], Sorted(xs[1..]));
    }
  }

  lemma {:induction false} SortedCounts(xs: seq<real>, v: real)
    ensures AtMost(Sorted(xs), v) == AtMost(xs, v)
    ensures Below(Sorted(xs), v) == Below(xs, v)
  {
    if xs != [] {
      SortedCounts(xs[1..], v);
      InsertCounts(xs[0], Sorted(xs[1..]), v);
    }
  }

  lemma {:induction false} CountBounds(xs: seq<real>, v: real)
    ensures Below(xs, v) <= AtMost(xs, v) <= |xs|
  {
    if xs != [] {
      CountBounds(xs[1..], v);
    }
  }

  lemma {:induction false} AscendingCounts(s: seq<real>, k: nat, v: real)
    requires Ascending(s) && k < |s|
    ensures s[k] <= v <==> AtMost(s, v) > k
    ensures s[k] < v <==> Below(s, v) > k
  {
    if k == 0 {
      forall i | 0 <= i < |s| ensures s[0] <= s[i] { AscendingFrom(s, 0, i); }
      if s[0] > v { NoneAtMost(s, v); }
      if s[0] >= v { NoneBelow(s, v); }
    } else {
      CountBounds(s[1..], v);
      AscendingCounts(s[1..], k - 1, v);
      AscendingFrom(s, 0, k);
    }
  }

  lemma {:induction false} NoneAtMost(s: seq<real>, v: real)
    requires forall i :: 0 <= i < |s| ==> s[i] > v
    ensures AtMost(s, v) == 0
  {
    if s != [] {
      NoneAtMost(s[1..], v);
    }
  }

  lemma {:induction false} NoneBelow(s: seq<real>, v: real)
    requires forall i :: 0 <= i < |s| ==> s[i] >= v
    ensures Below(s, v) == 0
  {
    if s != [] {
      NoneBelow(s[1..], v);
    }
  }

  /** The `k`th order statistic is at or below `v` exactly when more than `k` samples are. */
  lemma RankIsCount(xs: seq<real>, k: nat, v: real)
    requires k < |xs|
    ensures Sorted(xs)[k] <= v <==> AtMost(xs, v) > k
    ensures Sorted(xs)[k] < v <==> Below(xs, v) > k
  {
    SortedAscends(xs);
    SortedCounts(xs, v);
    AscendingCounts(Sorted(xs), k, v);
  }

  // ---------------------------------------------------------------- monotonicity

  lemma {:induction false} CountsFollow(b: seq<real>, v: real, c: seq<real>, w: real)
    requires |c| == |b| && forall i :: 0 <= i < |b| && b[i] <= v ==> c[i] <= w
    ensures AtMost(b, v) <= AtMost(c, w)
  {
    if c != [] {
      CountsFollow(b[1..], v, c[1..], w);
    }
  }

  lemma ScaledStep(x: real, y: real, r: real, v: real)
    requires r >= 0.0 && x <= r * y && y <= v
    ensures x <= r * v
  {
    assert r * (v - y) >= 0.0;
  }

  lemma ScaledCounts(c: seq<real>, b: seq<real>, r: real, v: real)
    requires |c| == |b| && r >= 0.0 && forall i :: 0 <= i < |c| ==> c[i] <= r * b[i]
    ensures AtMost(b, v) <= AtMost(c, r * v)
  {
    forall i | 0 <= i < |b| && b[i] <= v ensures c[i] <= r * v {
      ScaledStep(c[i], b[i], r, v);
    }
    CountsFollow(b, v, c, r * v);
  }

  /** Pointwise domination up to a factor carries over to every order statistic. */
  lemma {:induction false} RanksScale(c: seq<real>, b: seq<real>, r: real, k: nat)
    requires |c| == |b| && r >= 0.0 && k < |c| && forall i :: 0 <= i < |c| ==> c[i] <= r * b[i]
    ensures Sorted(c)[k] <= r * Sorted(b)[k]
  {
    var v := Sorted(b)[k];
    RankIsCount(b, k, v);
    ScaledCounts(c, b, r, v);
    RankIsCount(c, k, r * v);
  }

  lemma {:induction false} CountsFollowBelow(c: seq<real>, w: real, b: seq<real>, v: real)
    requires |c| == |b| && forall i :: 0 <= i < |c| && c[i] <= w ==> b[i] < v
    ensures AtMost(c, w) <= Below(b, v)
  {
    if c != [] {
      CountsFollowBelow(c[1..], w, b[1..], v);
    }
  }

  lemma StrictlyScaledStep(x: real, y: real, r: real, v: real)
    requires r > 0.0 && x > r * y && x <= r * v
    ensures y < v
  {
    assert r * (v - y) > 0.0;
  }

  lemma StrictlyScaledCounts(c: seq<real>, b: seq<real>, r: real, v: real)
    requires |c| == |b| && r > 0.0 && forall i :: 0 <= i < |c| ==> c[i] > r * b[i]
    ensures AtMost(c, r * v) <= Below(b, v)
  {
    forall i | 0 <= i < |c| && c[i] <= r * v ensures b[i] < v {
      StrictlyScaledStep(c[i], b[i], r, v);
    }
    CountsFollowBelow(c, r * v, b, v);
  }

  lemma {:induction false} RanksExceed(c: seq<real>, b: seq<real>, r: real, k: nat)
    requires |c| == |b| && r > 0.0 && k < |c| && forall i :: 0 <= i < |c| ==> c[i] > r * b[i]
    ensures Sorted(c)[k] > r * Sorted(b)[k]
  {
    var v := Sorted(b)[k];
    RankIsCount(b, k, v);
    StrictlyScaledCounts(c, b, r, v);
    RankIsCount(c, k, r * v);
  }

  // ---------------------------------------------------------------- the median

  function Median(xs: seq<real>): real
    requires xs != []
  {
    var s := Sorted(xs);
    if |xs| % 2 == 1 then s[|xs| / 2] else (s[|xs| / 2 - 1] + s[|xs| / 2]) / 2.0
  }

  lemma ScaledHalf(r: real, x: real, y: real)
    ensures r * ((x + y) / 2.0) == (r * x + r * y) / 2.0
  {
  }

  /** Median monotonicity, for any number of samples. */
  lemma MedianScales(c: seq<real>, b: seq<real>, r: real)
    requires |c| == |b| && c != [] && r >= 0.0 && forall i :: 0 <= i < |c| ==> c[i] <= r * b[i]
    ensures Median(c) <= r * Median(b)
  {
    RanksScale(c, b, r, |c| / 2);
    if |c| % 2 == 0 {
      RanksScale(c, b, r, |c| / 2 - 1);
      var x, y := Sorted(b)[|c| / 2 - 1], Sorted(b)[|c| / 2];
      ScaledHalf(r, x, y);
    }
  }

  lemma MedianExceeds(c: seq<real>, b: seq<real>, r: real)
    requires |c| == |b| && c != [] && r > 0.0 && forall i :: 0 <= i < |c| ==> c[i] > r * b[i]
    ensures Median(c) > r * Median(b)
  {
    RanksExceed(c, b, r, |c| / 2);
    if |c| % 2 == 0 {
      RanksExceed(c, b, r, |c| / 2 - 1);
      var x, y := Sorted(b)[|c| / 2 - 1], Sorted(b)[|c| / 2];
      ScaledHalf(r, x, y);
    }
  }

  // ---------------------------------------------------------------- the nearest-rank p95

  /** The rank `ceil(0.95 n)` in exact arithmetic. */
  function Rank95(n: nat): nat {
    (19 * n + 19) / 20
  }

  function P95(xs: seq<real>): real
    requires xs != []
  {
    Sorted(xs)[Rank95(|xs|) - 1]
  }

  lemma {:induction false} InsertMembers(x: real, xs: seq<real>)
    ensures forall y :: y in Insert(x, xs) <==> y == x || y in xs
  {
    if xs != [] && x > xs[0] {
      InsertMembers(x, xs[1..]);
    }
  }

  lemma {:induction false} SortedMembers(xs: seq<real>)
    ensures forall y :: y in Sorted(xs) <==> y in xs
  {
    if xs != [] {
      SortedMembers(xs[1..]);
      InsertMembers(xs[0], Sorted(xs[1..]));
    }
  }

  lemma LastIsLargest(xs: seq<real>)
    requires xs != []
    ensures Sorted(xs)[|xs| - 1] in xs
    ensures forall y <- xs :: y <= Sorted(xs)[|xs| - 1]
  {
    SortedMembers(xs);
    SortedAscends(xs);
    var s := Sorted(xs);
    assert s[|xs| - 1] in s;
    forall y | y in xs
      ensures y <= s[|xs| - 1]
    {
      var i :| 0 <= i < |s| && s[i] == y;
      AscendingFrom(s, i, |xs| - 1);
    }
  }

  lemma P95IsOrdered(xs: seq<real>)
    requires xs != []
    ensures P95(xs) in xs && Median(xs) <= P95(xs) <= Sorted(xs)[|xs| - 1]
  {
    var k, s := Rank95(|xs|) - 1, Sorted(xs);
    RankIsUpper(|xs|);
    SortedMembers(xs);
    assert s[k] in s;
    SortedAscends(xs);
    MedianIsBelow(xs, k);
    AscendingFrom(s, k, |xs| - 1);
  }

  lemma RankIsUpper(n: nat)
    requires n > 0
    ensures n / 2 <= Rank95(n) - 1 < n
    ensures 20 * (Rank95(n) - 1) < 19 * n <= 20 * Rank95(n)
  {
  }

  lemma {:induction false} MedianIsBelow(xs: seq<real>, k: nat)
    requires |xs| / 2 <= k < |xs| && Ascending(Sorted(xs))
    ensures Median(xs) <= Sorted(xs)[k]
  {
    var s := Sorted(xs);
    AscendingFrom(s, |xs| / 2, k);
    if |xs| % 2 == 0 {
      AscendingFrom(s, |xs| / 2 - 1, k);
    }
  }

  lemma {:induction false} P95IsLeast(xs: seq<real>)
    requires xs != []
    ensures 20 * AtMost(xs, P95(xs)) >= 19 * |xs|
    ensures forall v :: v < P95(xs) ==> 20 * AtMost(xs, v) < 19 * |xs|
  {
    var k := Rank95(|xs|) - 1;
    RankIsUpper(|xs|);
    RankIsCount(xs, k, P95(xs));
    forall v | v < P95(xs)
      ensures 20 * AtMost(xs, v) < 19 * |xs|
    {
      RankIsCount(xs, k, v);
    }
  }

  /** The nearest-rank p95 is the least sample that at least 95 percent of the samples do not
      exceed, and it lies between the median and the maximum. */
  lemma P95IsNearestRank(xs: seq<real>)
    requires xs != []
    ensures 1 <= Rank95(|xs|) <= |xs|
    ensures P95(xs) in xs
    ensures 20 * AtMost(xs, P95(xs)) >= 19 * |xs|
    ensures forall v :: v < P95(xs) ==> 20 * AtMost(xs, v) < 19 * |xs|
    ensures Median(xs) <= P95(xs) && exists m <- xs :: P95(xs) <= m && forall y <- xs :: y <= m
  {
    P95IsOrdered(xs);
    P95IsLeast(xs);
    LastIsLargest(xs);
  }
}
