/** Strings ordered by code points, and stable sorting by a string key: an element goes before the first
    one whose key is not smaller, so that elements with equal keys keep their order and sorting keeps
    the elements. */
module Strings {
  predicate Less(s: string, t: string) {
    t != "" && (s == "" || s[0] < t[0] || (s[0] == t[0] && Less(s[1..], t[1..])))
  }

  lemma {:induction false} LessIsStrict(s: string, t: string)
    requires Less(s, t)
    ensures s != t && !Less(t, s)
    decreases |s|
  {
    if s != "" && s[0] == t[0] {
      LessIsStrict(s[1..], t[1..]);
    }
  }

  lemma {:induction false} LessIsTotal(s: string, t: string)
    ensures s == t || Less(s, t) || Less(t, s)
    decreases |s|
  {
    if s != "" && t != "" && s[0] == t[0] {
      LessIsTotal(s[1..], t[1..]);
      assert s == [s[0]] + s[1..] && t == [t[0]] + t[1..];
    }
  }

  lemma {:induction false} LessIsTransitive(s: string, t: string, u: string)
    requires Less(s, t) && Less(t, u)
    ensures Less(s, u)
    decreases |s|
  {
    if s != "" && s[0] == t[0] && t[0] == u[0] {
      LessIsTransitive(s[1..], t[1..], u[1..]);
    }
  }

  type SortKey<!T> = T -> string

  /** An element goes before the first one whose key is not smaller, so equal keys keep their order. */
  function Insert<T>(x: T, xs: seq<T>, key: SortKey<T>): seq<T> {
    if xs == [] || !Less(key(xs[0]), key(x)) then [x] + xs else [xs[0]] + Insert(x, xs[1..], key)
  }

  function Sort<T>(xs: seq<T>, key: SortKey<T>): seq<T> {
    if xs == [] then [] else Insert(xs[0], Sort(xs[1..], key), key)
  }

  ghost predicate InOrder<T>(xs: seq<T>, key: SortKey<T>) {
    forall i, j :: 0 <= i < j < |xs| ==> !Less(key(xs[j]), key(xs[i]))
  }

  lemma {:induction false} InsertMembers<T>(x: T, xs: seq<T>, key: SortKey<T>)
    ensures |Insert(x, xs, key)| == |xs| + 1
    ensures forall y :: y in Insert(x, xs, key) <==> y == x || y in xs
    ensures forall j :: 0 <= j < |xs| + 1 ==> Insert(x, xs, key)[j] == x || Insert(x, xs, key)[j] in xs
  {
    if xs != [] && Less(key(xs[0]), key(x)) {
      InsertMembers(x, xs[1..], key);
    }
  }

  lemma {:induction false} SortMembers<T>(xs: seq<T>, key: SortKey<T>)
    ensures |Sort(xs, key)| == |xs|
    ensures forall y :: y in Sort(xs, key) <==> y in xs
  {
    if xs != [] {
      SortMembers(xs[1..], key);
      InsertMembers(xs[0], Sort(xs[1..], key), key);
    }
  }

  lemma {:induction false} InsertOrders<T>(x: T, xs: seq<T>, key: SortKey<T>)
    requires InOrder(xs, key)
    ensures InOrder(Insert(x, xs, key), key)
  {
    var r := Insert(x, xs, key);
    if xs != [] && Less(key(xs[0]), key(x)) {
      InsertOrders(x, xs[1..], key);
      InsertMembers(x, xs[1..], key);
      LessIsStrict(key(xs[0]), key(x));
      forall j | 1 <= j < |r| ensures !Less(key(r[j]), key(r[0])) {
        assert r[j] == Insert(x, xs[1..], key)[j - 1];
        if r[j] != x {
          var k :| 1 <= k < |xs| && xs[k] == r[j];
        }
      }
    } else {
      forall j | 1 <= j < |r| ensures !Less(key(r[j]), key(x)) {
        assert r[j] == xs[j - 1];
        assert j == 1 || !Less(key(xs[j - 1]), key(xs[0]));
        if j > 1 {
          StaysAbove(key(x), key(xs[0]), key(r[j]));
        }
      }
    }
  }

  lemma StaysAbove(k: string, first: string, later: string)
    requires !Less(first, k) && !Less(later, first)
    ensures !Less(later, k)
  {
    LessIsTotal(first, k);
    if Less(later, k) && first != k {
      LessIsTransitive(later, k, first);
    }
  }

  /** Sorting keeps the elements and puts their keys in order. */
  lemma {:induction false} SortOrders<T>(xs: seq<T>, key: SortKey<T>)
    ensures InOrder(Sort(xs, key), key)
  {
    if xs != [] {
      SortOrders(xs[1..], key);
      InsertOrders(xs[0], Sort(xs[1..], key), key);
    }
  }
}
