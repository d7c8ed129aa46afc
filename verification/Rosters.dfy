/** Worker rosters: written by the coordinator, checked by the worker. */
module Rosters {
  import opened Wrappers
  import opened Suites

  const SCHEMA := "alk-ci-worker-roster.v1"
  const MAX_ROSTER_BYTES := 2097152

  datatype Roster = Roster(
    schema: string, head: string, full: seq<Test>, indices: seq<int>, selected: seq<Test>)

  /** The clone a worker runs in: what `.git/HEAD` is, and its stripped text. */
  datatype Clone = Clone(headIsLink: bool, headBytes: nat, head: string)

  datatype Error = TooLarge | NotDetached | SourceDiffers | IndicesDiffer | SelectionDiffers

  datatype Accepted = Accepted(subtrees: seq<Suite>, selected: seq<Test>)

  predicate IsHex(c: char) {
    '0' <= c <= '9' || 'a' <= c <= 'f'
  }

  predicate CommitId(h: string) {
    (|h| == 40 || |h| == 64) && forall c <- h :: IsHex(c)
  }

  predicate Increasing(xs: seq<int>) {
    forall a, b :: 0 <= a < b < |xs| ==> xs[a] < xs[b]
  }

  /** The coordinator's roster for one group of indices. */
  function MakeRoster(s: Suite, discovered: seq<Test>, head: string, indices: seq<int>): Roster
    requires s.Group? && ValidIndices(indices, |s.children|)
  {
    Roster(SCHEMA, head, discovered, indices, InventoryAll(Select(s.children, indices)))
  }

  /** `worker_suite`: every check, in order, before any assigned subtree is run. */
  function WorkerSuite(s: Suite, discovered: seq<Test>, clone: Clone, bytes: nat, r: Roster): Result<Accepted, Error> {
    if bytes > MAX_ROSTER_BYTES then Refused(TooLarge)
    else if clone.headIsLink || clone.headBytes > 65 then Refused(NotDetached)
    else if r.schema != SCHEMA || !CommitId(clone.head) || clone.head != r.head || r.full != discovered
         || !s.Group? || !s.plain then Refused(SourceDiffers)
    else if r.indices == [] || !Increasing(r.indices) || !ValidIndices(r.indices, |s.children|)
      then Refused(IndicesDiffer)
    else
      var subtrees := Select(s.children, r.indices);
      var selected := InventoryAll(subtrees);
      if selected == [] || selected != r.selected then Refused(SelectionDiffers)
      else Ok(Accepted(subtrees, selected))
  }

  function Groups(split: Split): seq<seq<int>> {
    [[split.hot], split.rest]
  }

  /** The two groups cover every subtree exactly once, so the coordinator's own cover check holds. */
  lemma GroupsCoverOnce(s: Suite, discovered: seq<Test>)
    requires Partition(s, discovered).Some?
    ensures var split := Partition(s, discovered).value;
            && Increasing(split.rest)
            && split.hot < |s.children|
            && (forall i: int :: (0 <= i < |s.children|) <==> (i == split.hot || i in split.rest))
            && split.hot !in split.rest
  {
    SplitShape(s, discovered);
    OthersMembers(0, |s.children|, Partition(s, discovered).value.hot);
  }

  /** Roster round trip: each roster the coordinator writes for a split is accepted by the worker
      on the same tree and commit, and selects exactly the assigned subtrees, in order. */
  lemma RosterRoundTrip(s: Suite, discovered: seq<Test>, clone: Clone, bytes: nat, indices: seq<int>)
    requires Partition(s, discovered).Some? && indices in Groups(Partition(s, discovered).value)
    requires bytes <= MAX_ROSTER_BYTES && !clone.headIsLink && clone.headBytes <= 65 && CommitId(clone.head)
    ensures s.Group? && ValidIndices(indices, |s.children|)
    ensures var r := MakeRoster(s, discovered, clone.head, indices);
            WorkerSuite(s, discovered, clone, bytes, r)
              == Ok(Accepted(Select(s.children, indices), r.selected))
  {
    SplitShape(s, discovered);
    var split := Partition(s, discovered).value;
    SplitsExactly(s, discovered, split.hot);
    GroupsCoverOnce(s, discovered);
    if indices == split.rest {
      var before, after := InventoryAll(s.children[..split.hot]), InventoryAll(s.children[split.hot + 1..]);
      assert InventoryAll(Select(s.children, split.rest)) == before + after;
      assert Select(s.children, []) == [] && InventoryAll([]) == [];
      assert split.rest != [];
    }
  }

  // ---------------------------------------------------------------- order of the selected tests

  /** `at` places the elements of `xs` in `ys`, keeping their order. */
  ghost predicate Embeds(xs: seq<Test>, ys: seq<Test>, at: seq<nat>) {
    && |at| == |xs|
    && (forall k :: 0 <= k < |at| ==> at[k] < |ys| && ys[at[k]] == xs[k])
    && (forall a, b :: 0 <= a < b < |at| ==> at[a] < at[b])
  }

  ghost predicate Subsequence(xs: seq<Test>, ys: seq<Test>) {
    exists at: seq<nat> :: Embeds(xs, ys, at)
  }

  /** Placing a head and a tail separately places their concatenation. */
  lemma EmbedsAfter(head: seq<Test>, xs: seq<Test>, ys: seq<Test>, at: seq<nat>)
    requires Embeds(xs, ys, at)
    ensures Embeds(xs, head + ys, Shifted(at, |head|))
    ensures Embeds(head + xs, head + ys, Upto(|head|) + Shifted(at, |head|))
  {
  }

  /** Selecting subtrees at or after child `i` embeds their tests into those of the tail. */
  lemma {:induction false} SelectedEmbeds(cs: seq<Suite>, i: nat, indices: seq<int>) returns (at: seq<nat>)
    requires i <= |cs| && ValidIndices(indices, |cs|) && Increasing(indices)
    requires indices != [] ==> i <= indices[0]
    ensures Embeds(InventoryAll(Select(cs, indices)), InventoryAll(cs[i..]), at)
    decreases |cs| - i
  {
    if indices == [] {
      at := [];
    } else {
      var here, later := Inventory(cs[i]), InventoryAll(cs[i + 1..]);
      assert cs[i..][0] == cs[i] && cs[i..][1..] == cs[i + 1..];
      if i < indices[0] {
        var rest := SelectedEmbeds(cs, i + 1, indices);
        EmbedsAfter(here, InventoryAll(Select(cs, indices)), later, rest);
        at := Shifted(rest, |here|);
      } else {
        assert ValidIndices(indices[1..], |cs|) && Increasing(indices[1..]);
        var rest := SelectedEmbeds(cs, i + 1, indices[1..]);
        EmbedsAfter(here, InventoryAll(Select(cs, indices[1..])), later, rest);
        at := Upto(|here|) + Shifted(rest, |here|);
        var sel := Select(cs, indices);
        assert sel[0] == cs[i] && sel[1..] == Select(cs, indices[1..]);
      }
    }
  }

  function Shifted(at: seq<nat>, offset: nat): (r: seq<nat>)
    ensures |r| == |at| && forall k :: 0 <= k < |at| ==> r[k] == at[k] + offset
  {
    seq(|at|, k requires 0 <= k < |at| => at[k] + offset)
  }

  function Upto(n: nat): (r: seq<nat>)
    ensures |r| == n && forall k :: 0 <= k < n ==> r[k] == k
  {
    seq(n, k => k)
  }

  /** Any roster a worker accepts, whoever wrote it, selects a non-empty, order-preserving
      subsequence of the complete inventory. */
  lemma AcceptedIsSubsequence(s: Suite, discovered: seq<Test>, clone: Clone, bytes: nat, r: Roster)
    requires WorkerSuite(s, discovered, clone, bytes, r).Ok?
    ensures var a := WorkerSuite(s, discovered, clone, bytes, r).value;
            && a.selected == r.selected == InventoryAll(a.subtrees) && a.selected != []
            && Subsequence(a.selected, Inventory(s))
  {
    var at := SelectedEmbeds(s.children, 0, r.indices);
    assert s.children[0..] == s.children;
  }
}
