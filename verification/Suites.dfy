/** Suite trees, the split of a suite into a hot module and the rest. */
module Suites {
  import opened Wrappers

  const HOT_MODULE := "tests.workflow.test_limited_usage"

  datatype Test = Test(id: string, mod: string, cls: string)

  /** `plain` says that the group's type is exactly `unittest.TestSuite`, not a subclass. */
  datatype Suite = Case(test: Test) | Group(plain: bool, children: seq<Suite>)

  function Inventory(s: Suite): seq<Test> {
    match s
    case Case(t) => [t]
    case Group(_, cs) => InventoryAll(cs)
  }

  function InventoryAll(cs: seq<Suite>): seq<Test> {
    if cs == [] then [] else Inventory(cs[0]) + InventoryAll(cs[1..])
  }

  predicate IsHot(c: Suite) {
    exists t <- Inventory(c) :: t.mod == HOT_MODULE
  }

  /** Which children hold a test of the hot module. */
  function HotFlags(cs: seq<Suite>): seq<bool> {
    if cs == [] then [] else [IsHot(cs[0])] + HotFlags(cs[1..])
  }

  lemma {:induction false} HotFlagsAt(cs: seq<Suite>)
    ensures |HotFlags(cs)| == |cs|
    ensures forall i :: 0 <= i < |cs| ==> HotFlags(cs)[i] == IsHot(cs[i])
  {
    if cs != [] {
      HotFlagsAt(cs[1..]);
    }
  }

  function TrueIndices(flags: seq<bool>, n: nat): (hot: seq<nat>)
    requires n <= |flags|
    ensures forall i :: i in hot <==> 0 <= i < n && flags[i]
  {
    if n == 0 then [] else TrueIndices(flags, n - 1) + if flags[n - 1] then [n - 1] else []
  }

  lemma {:induction false} SingleIndex(flags: seq<bool>, n: nat, h: nat)
    requires n <= |flags| && forall i :: 0 <= i < n ==> (flags[i] <==> i == h)
    ensures TrueIndices(flags, n) == if h < n then [h] else []
  {
    if n > 0 {
      SingleIndex(flags, n - 1, h);
      assert TrueIndices(flags, n) == TrueIndices(flags, n - 1) + if h == n - 1 then [n - 1] else [];
    }
  }

  /** All indices from `i` up to `n`, except `skip`. */
  function Others(i: nat, n: nat, skip: nat): (rest: seq<nat>)
    requires i <= n
    ensures forall k :: 0 <= k < |rest| ==> i <= rest[k] < n
    decreases n - i
  {
    if i == n then []
    else if i == skip then Others(i + 1, n, skip)
    else [i] + Others(i + 1, n, skip)
  }

  lemma {:induction false} OthersMembers(i: nat, n: nat, skip: nat)
    requires i <= n
    ensures forall k: int :: k in Others(i, n, skip) <==> i <= k < n && k != skip
    ensures forall a, b :: 0 <= a < b < |Others(i, n, skip)| ==> Others(i, n, skip)[a] < Others(i, n, skip)[b]
    decreases n - i
  {
    if i < n {
      OthersMembers(i + 1, n, skip);
    }
  }

  datatype Split = Split(hot: nat, rest: seq<nat>)

  /** `partition`: the index of the hot child and those of all others, or nothing. */
  function Partition(s: Suite, discovered: seq<Test>): Option<Split> {
    if !s.Group? || !s.plain then None else
    var cs := s.children;
    var flags := HotFlags(cs);
    var hot := TrueIndices(flags, |flags|);
    HotFlagsAt(cs);
    if |hot| != 1 then None else
    assert hot[0] in hot;
    var h := hot[0];
    if exists t <- Inventory(cs[h]) :: t.mod != HOT_MODULE then None else
    if !cs[h].Group? then None else
    var before, after := InventoryAll(cs[..h]), InventoryAll(cs[h + 1..]);
    if before == [] && after == [] then None else
    if before != [] && after != [] && before[|before| - 1].mod == after[0].mod then None else
    if InventoryAll(cs) != discovered then None else
    Some(Split(h, Others(0, |cs|, h)))
  }

  // ---------------------------------------------------------------- inventories of subtrees

  lemma {:induction false} InventoryConcat(a: seq<Suite>, b: seq<Suite>)
    ensures InventoryAll(a + b) == InventoryAll(a) + InventoryAll(b)
  {
    if a == [] {
      assert a + b == b;
    } else {
      assert (a + b)[0] == a[0] && (a + b)[1..] == a[1..] + b;
      InventoryConcat(a[1..], b);
    }
  }

  predicate ValidIndices(indices: seq<int>, n: nat) {
    forall k :: 0 <= k < |indices| ==> 0 <= indices[k] < n
  }

  function Select(cs: seq<Suite>, indices: seq<int>): seq<Suite>
    requires ValidIndices(indices, |cs|)
  {
    if indices == [] then [] else [cs[indices[0]]] + Select(cs, indices[1..])
  }

  lemma SelectNext(cs: seq<Suite>, i: nat, h: nat)
    requires i < |cs| && i != h
    ensures Select(cs, Others(i, |cs|, h)) == [cs[i]] + Select(cs, Others(i + 1, |cs|, h))
  {
    assert Others(i, |cs|, h)[1..] == Others(i + 1, |cs|, h);
  }

  lemma Widen<T>(xs: seq<T>, i: nat, h: nat, rest: seq<T>)
    requires i < h <= |xs|
    ensures [xs[i]] + (xs[i + 1..h] + rest) == xs[i..h] + rest
  {
  }

  lemma {:induction false} SelectTail(cs: seq<Suite>, i: nat, h: nat)
    requires h < i <= |cs|
    ensures Select(cs, Others(i, |cs|, h)) == cs[i..]
    decreases |cs| - i
  {
    if i < |cs| {
      SelectTail(cs, i + 1, h);
      SelectNext(cs, i, h);
    }
  }

  lemma {:induction false} SelectOthers(cs: seq<Suite>, i: nat, h: nat)
    requires i <= h < |cs|
    ensures Select(cs, Others(i, |cs|, h)) == cs[i..h] + cs[h + 1..]
    decreases h - i
  {
    if i == h {
      SelectTail(cs, h + 1, h);
    } else {
      SelectOthers(cs, i + 1, h);
      SelectNext(cs, i, h);
      Widen(cs, i, h, cs[h + 1..]);
    }
  }

  /** What a split divides the tests into. */
  lemma SplitShape(s: Suite, discovered: seq<Test>)
    requires Partition(s, discovered).Some?
    ensures s.Group?
    ensures var Split(h, rest) := Partition(s, discovered).value;
            && h < |s.children| && ValidIndices(rest, |s.children|)
            && s.children[h].Group?
            && discovered == InventoryAll(s.children[..h]) + Inventory(s.children[h]) + InventoryAll(s.children[h + 1..])
            && InventoryAll(Select(s.children, rest)) == InventoryAll(s.children[..h]) + InventoryAll(s.children[h + 1..])
            && InventoryAll(Select(s.children, [h])) == Inventory(s.children[h])
            && Inventory(s.children[h]) != []
            && (forall t <- Inventory(s.children[h]) :: t.mod == HOT_MODULE)
  {
    var cs := s.children;
    var h := Partition(s, discovered).value.hot;
    HotChildHasTests(cs);
    DivideInventory(cs, h);
    SelectOthers(cs, 0, h);
    assert cs[0..h] == cs[..h];
    InventoryConcat(cs[..h], cs[h + 1..]);
  }

  lemma HotChildHasTests(cs: seq<Suite>)
    ensures |HotFlags(cs)| == |cs|
    ensures var hot := TrueIndices(HotFlags(cs), |cs|);
            |hot| == 1 ==> hot[0] < |cs| && Inventory(cs[hot[0]]) != []
  {
    HotFlagsAt(cs);
    var hot := TrueIndices(HotFlags(cs), |cs|);
    if |hot| == 1 {
      assert hot[0] in hot;
    }
  }

  lemma {:induction false} DivideInventory(cs: seq<Suite>, h: nat)
    requires h < |cs|
    ensures InventoryAll(cs) == InventoryAll(cs[..h]) + Inventory(cs[h]) + InventoryAll(cs[h + 1..])
    ensures InventoryAll(Select(cs, [h])) == Inventory(cs[h])
  {
    assert cs == cs[..h] + cs[h..] && cs[h..] == [cs[h]] + cs[h + 1..];
    InventoryConcat(cs[..h], cs[h..]);
    assert InventoryAll(cs[h..]) == Inventory(cs[h]) + InventoryAll(cs[h + 1..]);
    OneChild(cs, h);
  }

  lemma OneChild(cs: seq<Suite>, h: nat)
    requires h < |cs|
    ensures InventoryAll(Select(cs, [h])) == Inventory(cs[h])
  {
    assert [h][1..] == [] && Select(cs, []) == [];
    assert [cs[h]][1..] == [] && InventoryAll([]) == [];
    assert Select(cs, [h]) == [cs[h]];
  }

  /** Tests outside the hot child never belong to the hot module. */
  lemma OnlyOneHotChild(s: Suite, discovered: seq<Test>)
    requires Partition(s, discovered).Some?
    ensures var h := Partition(s, discovered).value.hot;
            && h < |s.children|
            && (forall t <- InventoryAll(s.children[..h]) :: t.mod != HOT_MODULE)
            && (forall t <- InventoryAll(s.children[h + 1..]) :: t.mod != HOT_MODULE)
  {
    FoundIsSplit(s, discovered);
    OthersAreCold(s.children, Partition(s, discovered).value.hot);
  }

  lemma OthersAreCold(cs: seq<Suite>, h: nat)
    requires h < |cs| && forall i :: 0 <= i < |cs| ==> (IsHot(cs[i]) <==> i == h)
    ensures forall t <- InventoryAll(cs[..h]) :: t.mod != HOT_MODULE
    ensures forall t <- InventoryAll(cs[h + 1..]) :: t.mod != HOT_MODULE
  {
    ColdTests(cs[..h]);
    ColdTests(cs[h + 1..]);
  }

  lemma {:induction false} ColdTests(cs: seq<Suite>)
    requires forall c <- cs :: !IsHot(c)
    ensures forall t <- InventoryAll(cs) :: t.mod != HOT_MODULE
  {
    if cs != [] {
      assert !IsHot(cs[0]);
      ColdTests(cs[1..]);
    }
  }

  predicate OnlyHotChild(cs: seq<Suite>, h: nat) {
    && h < |cs| && cs[h].Group?
    && (forall i :: 0 <= i < |cs| ==> (IsHot(cs[i]) <==> i == h))
    && (forall t <- Inventory(cs[h]) :: t.mod == HOT_MODULE)
  }

  predicate SeamHolds(before: seq<Test>, after: seq<Test>) {
    && (before != [] || after != [])
    && (before != [] && after != [] ==> before[|before| - 1].mod != after[0].mod)
  }

  ghost predicate SplitsAt(s: Suite, discovered: seq<Test>, h: nat) {
    && s.Group? && s.plain && OnlyHotChild(s.children, h)
    && SeamHolds(InventoryAll(s.children[..h]), InventoryAll(s.children[h + 1..]))
    && discovered == InventoryAll(s.children)
  }

  /** Exactly which suites split: one child, a group, holds every test of the hot module and no
      other; something remains; the remaining neighbours differ in module; and the discovered
      list is the tree's own. */
  lemma SplitsExactly(s: Suite, discovered: seq<Test>, h: nat)
    ensures Partition(s, discovered).Some? && Partition(s, discovered).value.hot == h <==> SplitsAt(s, discovered, h)
  {
    if SplitsAt(s, discovered, h) {
      SplitIsFound(s, discovered, h);
    }
    if Partition(s, discovered).Some? && Partition(s, discovered).value.hot == h {
      FoundIsSplit(s, discovered);
    }
  }

  lemma SplitIsFound(s: Suite, discovered: seq<Test>, h: nat)
    requires SplitsAt(s, discovered, h)
    ensures Partition(s, discovered).Some? && Partition(s, discovered).value.hot == h
  {
    HotChildIsFound(s.children, h);
  }

  lemma FoundIsSplit(s: Suite, discovered: seq<Test>)
    requires Partition(s, discovered).Some?
    ensures SplitsAt(s, discovered, Partition(s, discovered).value.hot)
  {
    HotFlagsAt(s.children);
    FoundIsOnlyHot(s.children, Partition(s, discovered).value.hot);
  }

  lemma FoundIsOnlyHot(cs: seq<Suite>, h: nat)
    requires |HotFlags(cs)| == |cs| && TrueIndices(HotFlags(cs), |cs|) == [h]
    ensures h < |cs| && forall i :: 0 <= i < |cs| ==> (IsHot(cs[i]) <==> i == h)
  {
    HotFlagsAt(cs);
    assert h in [h];
    forall i | 0 <= i < |cs|
      ensures IsHot(cs[i]) <==> i == h
    {
      assert HotFlags(cs)[i] <==> i in [h];
    }
  }

  lemma HotChildIsFound(cs: seq<Suite>, h: nat)
    requires OnlyHotChild(cs, h)
    ensures |HotFlags(cs)| == |cs| && TrueIndices(HotFlags(cs), |cs|) == [h]
  {
    HotFlagsAt(cs);
    assert forall i :: 0 <= i < |cs| ==> HotFlags(cs)[i] == IsHot(cs[i]);
    SingleIndex(HotFlags(cs), |cs|, h);
  }

  // ---------------------------------------------------------------- fixture runs

  datatype Run<+K> = Run(key: K, count: nat)

  function Push<K(==)>(k: K, runs: seq<Run<K>>): seq<Run<K>> {
    if runs != [] && runs[0].key == k
    then [Run(k, runs[0].count + 1)] + runs[1..]
    else [Run(k, 1)] + runs
  }

  /** Run-length encoding by a key: one entry per fixture set-up that unittest performs. */
  function Runs<K(==)>(ts: seq<Test>, key: Test -> K): (runs: seq<Run<K>>)
    ensures ts == [] <==> runs == []
    ensures ts != [] ==> runs[0].key == key(ts[0])
  {
    if ts == [] then [] else Push(key(ts[0]), Runs(ts[1..], key))
  }

  lemma PushConcat<K>(k: K, a: seq<Run<K>>, b: seq<Run<K>>)
    requires a != [] || b == [] || b[0].key != k
    ensures Push(k, a + b) == Push(k, a) + b
  {
    if a == [] {
      PushBefore(k, b);
      assert a + b == b;
    } else {
      PushOnto(k, a, b);
    }
  }

  lemma PushBefore<K>(k: K, b: seq<Run<K>>)
    requires b == [] || b[0].key != k
    ensures Push(k, b) == Push(k, []) + b
  {
  }

  lemma PushOnto<K>(k: K, a: seq<Run<K>>, b: seq<Run<K>>)
    requires a != []
    ensures Push(k, a + b) == Push(k, a) + b
  {
    assert (a + b)[0] == a[0] && (a + b)[1..] == a[1..] + b;
    if a[0].key == k {
      Regroup([Run(k, a[0].count + 1)], a[1..], b);
    } else {
      Regroup([Run(k, 1)], a, b);
    }
  }

  lemma Regroup<T>(a: seq<T>, b: seq<T>, c: seq<T>)
    ensures a + (b + c) == (a + b) + c
  {
  }

  lemma {:induction false} RunsConcat<K>(a: seq<Test>, b: seq<Test>, key: Test -> K)
    requires a == [] || b == [] || key(a[|a| - 1]) != key(b[0])
    ensures Runs(a + b, key) == Runs(a, key) + Runs(b, key)
  {
    if a == [] {
      assert a + b == b;
    } else {
      assert (a + b)[0] == a[0] && (a + b)[1..] == a[1..] + b;
      RunsConcat(a[1..], b, key);
      PushConcat(key(a[0]), Runs(a[1..], key), Runs(b, key));
    }
  }

  /** A seam between equal keys merges two runs into one. */
  lemma {:induction false} RunsMerge<K>(a: seq<Test>, b: seq<Test>, key: Test -> K)
    requires a != [] && b != [] && key(a[|a| - 1]) == key(b[0])
    ensures |Runs(a + b, key)| == |Runs(a, key)| + |Runs(b, key)| - 1
  {
    assert (a + b)[0] == a[0] && (a + b)[1..] == a[1..] + b;
    if |a| == 1 {
      assert a[1..] + b == b;
    } else {
      RunsMerge(a[1..], b, key);
    }
  }

  const ByModule: Test -> string := (t: Test) => t.mod
  const ByClass: Test -> (string, string) := (t: Test) => (t.mod, t.cls)

  /** Splitting preserves fixture runs.  By module and by class, the runs of the discovered tests
      are the runs before, of, and after the hot child, and the remaining worker performs exactly
      the first and the last: no set-up is merged, lost or repeated. */
  lemma SplitKeepsFixtureRuns(s: Suite, discovered: seq<Test>)
    requires Partition(s, discovered).Some?
    ensures var Split(h, rest) := Partition(s, discovered).value;
            && h < |s.children| && ValidIndices(rest, |s.children|)
            && (var before, hot, after := InventoryAll(s.children[..h]), Inventory(s.children[h]), InventoryAll(s.children[h + 1..]);
                var remaining := InventoryAll(Select(s.children, rest));
                && Runs(discovered, ByModule) == Runs(before, ByModule) + Runs(hot, ByModule) + Runs(after, ByModule)
                && Runs(discovered, ByClass) == Runs(before, ByClass) + Runs(hot, ByClass) + Runs(after, ByClass)
                && Runs(remaining, ByModule) == Runs(before, ByModule) + Runs(after, ByModule)
                && Runs(remaining, ByClass) == Runs(before, ByClass) + Runs(after, ByClass)
                && |Runs(hot, ByModule)| == 1)
  {
    SplitShape(s, discovered);
    FoundIsSplit(s, discovered);
    OnlyOneHotChild(s, discovered);
    var h := Partition(s, discovered).value.hot;
    var before, hot, after := InventoryAll(s.children[..h]), Inventory(s.children[h]), InventoryAll(s.children[h + 1..]);
    SplitRuns(before, hot, after);
  }

  lemma SplitRuns(before: seq<Test>, hot: seq<Test>, after: seq<Test>)
    requires hot != [] && (forall t <- hot :: t.mod == HOT_MODULE)
    requires forall t :: t in before || t in after ==> t.mod != HOT_MODULE
    requires SeamHolds(before, after)
    ensures Runs(before + hot + after, ByModule) == Runs(before, ByModule) + Runs(hot, ByModule) + Runs(after, ByModule)
    ensures Runs(before + hot + after, ByClass) == Runs(before, ByClass) + Runs(hot, ByClass) + Runs(after, ByClass)
    ensures Runs(before + after, ByModule) == Runs(before, ByModule) + Runs(after, ByModule)
    ensures Runs(before + after, ByClass) == Runs(before, ByClass) + Runs(after, ByClass)
    ensures |Runs(hot, ByModule)| == 1
  {
    ThreeRuns(before, hot, after, ByModule);
    ThreeRuns(before, hot, after, ByClass);
    RunsConcat(before, after, ByModule);
    RunsConcat(before, after, ByClass);
    OneRun(hot);
  }

  lemma ThreeRuns<K>(before: seq<Test>, hot: seq<Test>, after: seq<Test>, key: Test -> K)
    requires hot != []
    requires before != [] ==> key(before[|before| - 1]) != key(hot[0])
    requires after != [] ==> key(hot[|hot| - 1]) != key(after[0])
    ensures Runs(before + hot + after, key) == Runs(before, key) + Runs(hot, key) + Runs(after, key)
  {
    RunsConcat(before, hot, key);
    var first := before + hot;
    assert first[|first| - 1] == hot[|hot| - 1];
    RunsConcat(first, after, key);
  }

  lemma {:induction false} OneRun(ts: seq<Test>)
    requires ts != [] && forall t <- ts :: t.mod == HOT_MODULE
    ensures |Runs(ts, ByModule)| == 1
  {
    if |ts| > 1 {
      OneRun(ts[1..]);
    }
  }

  /** The seam check is needed: without it the remaining worker would merge two module set-ups. */
  lemma SeamCheckIsExact(before: seq<Test>, after: seq<Test>)
    requires before != [] && after != []
    ensures Runs(before + after, ByModule) == Runs(before, ByModule) + Runs(after, ByModule) <==>
            before[|before| - 1].mod != after[0].mod
  {
    if before[|before| - 1].mod == after[0].mod {
      RunsMerge(before, after, ByModule);
    } else {
      RunsConcat(before, after, ByModule);
    }
  }
}
