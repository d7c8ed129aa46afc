/** The replay of an accepted file map. */
module Replay {
  // Files are copied one by one into a fresh replica, and each is checked right after its own copy only.

  import opened Wrappers
  import opened Strings
  import opened PortablePaths
  import opened FileMap

  /** A place in the replica is named by canonical parts, so names that the file system identifies are
      the same place. */
  datatype Node = File(data: Bytes) | Dir | Link

  type Tree = map<Path, Node>

  /** How the file system tells names apart: it identifies no more names than the folds do. */
  ghost predicate NoCoarser(canon: string -> string, f: Folding) {
    && (forall p, q :: canon(p) == canon(q) ==> f.full(p) == f.full(q))
    && (forall p :: canon(p) == canon(".git") ==> f.caseOnly(p) == ".git")
  }

  function Place(value: string, canon: string -> string): Path {
    Fold(canon, Parts(value))
  }

  /** Nothing stands in the way of a file at this place: no link on the way or there, no file on the
      way, no directory there. */
  ghost predicate Clear(t: Tree, loc: Path) {
    && loc != []
    && (forall k :: 0 <= k < |loc| ==> !(loc[..k] in t && t[loc[..k]] != Dir))
    && !(loc in t && !t[loc].File?)
  }

  /** `after` is `before` with a file at `loc` and the directories it needs. */
  ghost predicate Written(before: Tree, after: Tree, loc: Path, data: Bytes) {
    && loc in after && after[loc] == File(data)
    && OnlyMakesDirs(before, after, loc)
  }

  /** Apart from `loc`, nothing changed but new directories above it. */
  ghost predicate OnlyMakesDirs(before: Tree, after: Tree, loc: Path) {
    && (forall p :: p in before && p != loc ==> p in after && after[p] == before[p])
    && (forall p :: p in after && p !in before && p != loc ==> p < loc && after[p] == Dir)
  }

  function Places(files: seq<Item>, canon: string -> string): (r: seq<Path>)
    ensures |r| == |files| && forall k :: 0 <= k < |files| ==> r[k] == Place(files[k].original, canon)
  {
    seq(|files|, k requires 0 <= k < |files| => Place(files[k].original, canon))
  }

  /** Only the given places, and new directories above them, can differ. */
  ghost predicate Undisturbed(before: Tree, after: Tree, places: seq<Path>) {
    && (forall p :: p in before && p !in places ==> p in after && after[p] == before[p])
    && (forall p :: p in after && p !in before && p !in places ==> after[p] == Dir && Above(p, places))
  }

  ghost predicate Above(p: Path, places: seq<Path>) {
    exists k :: 0 <= k < |places| && p < places[k]
  }

  /** No place is equal to or above another. */
  ghost predicate PrefixFree(places: seq<Path>) {
    forall i, j :: 0 <= i < |places| && 0 <= j < |places| && i != j && places[i] != [] ==> !(places[i] <= places[j])
  }

  lemma CanonicalPrefixFolds(a: Path, b: Path, canon: string -> string, f: Folding)
    requires NoCoarser(canon, f) && Fold(canon, a) <= Fold(canon, b)
    ensures Fold(f.full, a) <= Fold(f.full, b)
  {
    forall k | 0 <= k < |a| ensures Fold(f.full, a)[k] == Fold(f.full, b)[k] {
      assert Fold(canon, a)[k] == Fold(canon, b)[k];
    }
  }

  lemma AcceptedPlacesAreApart(
      files: seq<Item>, f: Folding, backup: string -> Option<Identity>, canon: string -> string, i: nat, j: nat)
    requires Accepted(files, f, backup) && KeepsParts(f) && NoCoarser(canon, f)
    requires i < |files| && j < |files| && i != j && Place(files[i].original, canon) != []
    ensures !(Place(files[i].original, canon) <= Place(files[j].original, canon))
  {
    AcceptedIsPrefixFree(files, f, backup, i, j);
    if Place(files[i].original, canon) <= Place(files[j].original, canon) {
      CanonicalPrefixFolds(Split(files[i].original), Split(files[j].original), canon, f);
    }
  }

  lemma AcceptedPlacesArePrefixFree(
      files: seq<Item>, f: Folding, backup: string -> Option<Identity>, canon: string -> string)
    requires Accepted(files, f, backup) && KeepsParts(f) && NoCoarser(canon, f)
    ensures PrefixFree(Places(files, canon))
  {
    var places := Places(files, canon);
    forall i, j | 0 <= i < |places| && 0 <= j < |places| && i != j && places[i] != []
      ensures !(places[i] <= places[j])
    {
      AcceptedPlacesAreApart(files, f, backup, canon, i, j);
    }
  }

  /** Files written at places that are not above or below this one leave it as clear as it was. */
  lemma ClearIsStable(before: Tree, now: Tree, places: seq<Path>, k: nat, j: nat)
    requires k <= j < |places| && PrefixFree(places) && Undisturbed(before, now, places[..k])
    requires forall i :: 0 <= i < k ==> places[i] != []
    ensures Clear(now, places[j]) <==> Clear(before, places[j])
  {
    var loc := places[j];
    if loc != [] {
      forall p | p <= loc ensures p !in places[..k] {
        assert forall i :: 0 <= i < k ==> !(places[i] <= places[j]);
      }
      assert !Above(loc, places[..k]);
      assert forall m :: 0 <= m < |loc| ==> loc[..m] <= loc;
    }
  }

  /** Whether item `k` arrives: in time, with nothing in the way, and with the recorded identity. */
  ghost predicate Delivers(before: Tree, item: Item, canon: string -> string, data: Option<Bytes>, digest: Bytes -> string) {
    && Clear(before, Place(item.original, canon))
    && data.Some? && IdentityOf(data.value, digest) == item.identity
  }

  /** Every one of the first `k` items could be delivered into the tree on its own. */
  ghost predicate AllDeliver(before: Tree, files: seq<Item>, canon: string -> string, contents: nat -> Option<Bytes>,
                             digest: Bytes -> string, late: nat -> bool, k: nat)
    requires k <= |files|
  {
    forall j :: 0 <= j < k ==> !late(j) && Delivers(before, files[j], canon, contents(j), digest)
  }

  lemma DeliverNext(before: Tree, files: seq<Item>, canon: string -> string, contents: nat -> Option<Bytes>,
                                       digest: Bytes -> string, late: nat -> bool, k: nat)
    requires k < |files| && AllDeliver(before, files, canon, contents, digest, late, k)
    ensures var now := !late(k) && Delivers(before, files[k], canon, contents(k), digest);
            && (now ==> AllDeliver(before, files, canon, contents, digest, late, k + 1))
            && (!now ==> !AllDeliver(before, files, canon, contents, digest, late, |files|))
  {
  }

  /** The first `k` places hold their files. */
  ghost predicate Holds(now: Tree, files: seq<Item>, canon: string -> string, contents: nat -> Option<Bytes>,
                        digest: Bytes -> string, k: nat)
    requires k <= |files|
  {
    forall j :: 0 <= j < k ==>
      var loc := Place(files[j].original, canon);
      loc != [] && loc in now && contents(j).Some? && now[loc] == File(contents(j).value)
      && IdentityOf(contents(j).value, digest) == files[j].identity
  }

  /** The loop after `k` items. */
  ghost predicate Progress(before: Tree, now: Tree, files: seq<Item>, canon: string -> string,
                           contents: nat -> Option<Bytes>, digest: Bytes -> string, k: nat)
    requires k <= |files|
  {
    Holds(now, files, canon, contents, digest, k) && Undisturbed(before, now, Places(files, canon)[..k])
  }

  lemma WriteKeeps(before: Tree, was: Tree, now: Tree, places: seq<Path>, k: nat)
    requires k < |places| && Undisturbed(before, was, places[..k]) && OnlyMakesDirs(was, now, places[k])
    ensures Undisturbed(before, now, places[..k + 1])
  {
    var some, more := places[..k], places[..k + 1];
    assert more == some + [places[k]];
    forall p | p in now && p !in before && p !in more ensures now[p] == Dir && Above(p, more) {
      if p in was {
        var i :| 0 <= i < |some| && p < some[i];
        assert more[i] == some[i];
      } else {
        assert p < more[k];
      }
    }
  }

  lemma WriteHolds(
      was: Tree, now: Tree, files: seq<Item>, canon: string -> string, contents: nat -> Option<Bytes>,
      digest: Bytes -> string, k: nat)
    requires k < |files| && Holds(was, files, canon, contents, digest, k)
    requires PrefixFree(Places(files, canon)) && contents(k).Some?
    requires Place(files[k].original, canon) != []
    requires Written(was, now, Place(files[k].original, canon), contents(k).value)
    requires IdentityOf(contents(k).value, digest) == files[k].identity
    ensures Holds(now, files, canon, contents, digest, k + 1)
  {
    var places := Places(files, canon);
    forall j | 0 <= j < k
      ensures places[j] != [] && places[j] in now && contents(j).Some? && now[places[j]] == File(contents(j).value)
              && IdentityOf(contents(j).value, digest) == files[j].identity
    {
      assert !(places[j] <= places[k]);
    }
  }

  lemma LooseEnds(before: Tree, now: Tree, places: seq<Path>, k: nat)
    requires k <= |places| && Undisturbed(before, now, places[..k])
    ensures Undisturbed(before, now, places)
  {
    forall p | p in now && p !in before && p !in places ensures now[p] == Dir && Above(p, places) {
      assert p !in places[..k];
      var i :| 0 <= i < k && p < places[..k][i];
      assert p < places[i];
    }
  }

  /** A part that the file system takes for `.git`. */
  ghost predicate InGit(p: Path, canon: string -> string) {
    exists k :: 0 <= k < |p| && p[k] == canon(".git")
  }

  /** No file map reaches Git's own files: whatever it contains, nothing at or below a part that the
      file system takes for `.git` changes. */
  lemma GitIsUntouched(
      files: seq<Item>, f: Folding, canon: string -> string, before: Tree, after: Tree, p: Path)
    requires forall k :: 0 <= k < |files| ==> Relative(files[k].original, f)
    requires NoCoarser(canon, f) && Undisturbed(before, after, Places(files, canon)) && InGit(p, canon)
    ensures p in before <==> p in after
    ensures p in before ==> after[p] == before[p]
  {
    var places := Places(files, canon);
    var m :| 0 <= m < |p| && p[m] == canon(".git");
    forall k | 0 <= k < |places| ensures !(p <= places[k]) {
      var parts := Parts(files[k].original);
      assert forall i :: 0 <= i < |parts| ==> PartAllowed(parts[i], f);
      assert forall i :: 0 <= i < |places[k]| ==> places[k][i] != canon(".git");
    }
  }

  // ---------------------------------------------------------------- the value that is only a dot

  /** A map that holds it and is accepted: the original paths are a dot and `b`.  The folds need only
      keep the four texts that occur, as NFC and case folding do. */
  lemma DotIsAccepted(files: seq<Item>, f: Folding, backup: string -> Option<Identity>, id: Identity)
    requires files == [Item(".", "a", id), Item("b", "b", id)]
    requires forall s :: s in ["", ".", "a", "b"] ==> f.full(s) == s && f.caseOnly(s) == s
    requires IsDigest(id.sha256) && id.bytes >= 0 && backup("a") == Some(id) && backup("b") == Some(id)
    ensures Accepted(files, f, backup)
  {
    LetterIsPortable("a", f);
    LetterIsPortable("b", f);
    assert forall k :: 0 <= k < |files| ==> EntryHolds(files[k], f, backup);
    DotAndLetterAreApart(files, f);
    assert Less(".", "b") && !Less("b", ".");
  }

  lemma LetterIsPortable(s: string, f: Folding)
    requires s == "a" || s == "b"
    requires f.full(s) == s && f.caseOnly(s) == s
    ensures Relative(s, f) && Split(s) == [s] && Key(s, f) == s
  {
    SplitOne(s);
    assert Stem(s) == s by {
      assert Stem(s[1..]) == "";
    }
    assert forall d :: d in DEVICES ==> |d| > 1;
    assert Fold(f.full, Split(s)) == [s];
  }

  lemma DotAndLetterAreApart(files: seq<Item>, f: Folding)
    requires |files| == 2 && files[0].original == "." && files[1].original == "b"
    requires files[0].archived == "a" && files[1].archived == "b"
    requires forall s :: s in ["", ".", "a", "b"] ==> f.full(s) == s && f.caseOnly(s) == s
    ensures PairwiseApart(files, f)
  {
    LetterIsPortable("a", f);
    LetterIsPortable("b", f);
    SplitOne(".");
    assert Fold(f.full, Split(".")) == ["."];
    assert Key(".", f) == ".";
    assert |Separated(".")| == 2 && |Separated("b")| == 2;
  }

  /** Such a map can never be replayed, into no replica, whatever the backup holds. */
  lemma DotNeverArrives(
      before: Tree, files: seq<Item>, canon: string -> string, contents: nat -> Option<Bytes>, digest: Bytes -> string,
      late: nat -> bool, k: nat)
    requires k < |files| && files[k].original == "."
    ensures !AllDeliver(before, files, canon, contents, digest, late, |files|)
  {
    assert Place(files[k].original, canon) == [];
    assert !Delivers(before, files[k], canon, contents(k), digest);
  }

  /** A replica that holds nothing yet. */
  const EMPTY: Tree := map[[] := Dir]

  lemma EmptyIsClear(loc: Path)
    ensures Clear(EMPTY, loc) <==> loc != []
  {
  }

  /** What arrives: into an empty replica, a map is replayed exactly when it holds no dot, every copy is
      in time, and the backup still holds what was recorded. */
  lemma EmptyReplicaExactly(
      files: seq<Item>, canon: string -> string, contents: nat -> Option<Bytes>, digest: Bytes -> string, late: nat -> bool)
    ensures AllDeliver(EMPTY, files, canon, contents, digest, late, |files|) <==>
            forall k :: 0 <= k < |files| ==>
              && files[k].original != "." && !late(k)
              && contents(k).Some? && IdentityOf(contents(k).value, digest) == files[k].identity
  {
    forall k | 0 <= k < |files|
      ensures Delivers(EMPTY, files[k], canon, contents(k), digest) <==>
              && files[k].original != "."
              && contents(k).Some? && IdentityOf(contents(k).value, digest) == files[k].identity
    {
      EmptyIsClear(Place(files[k].original, canon));
    }
  }

  class Replica {
    var tree: Tree

    /** `contained` with a missing leaf allowed, then `mkdir` of the parents, then the copy of what the
        backup holds, if it holds anything. */
    method Write(loc: Path, data: Option<Bytes>) returns (ok: bool)
      modifies this
      ensures ok <==> Clear(old(tree), loc) && data.Some?
      ensures ok ==> Written(old(tree), tree, loc, data.value)
      ensures OnlyMakesDirs(old(tree), tree, loc)
    {
      ok := CanWrite(loc);
      if ok {
        MakeParents(loc);
        if data.None? {
          return false;
        }
        tree := tree[loc := File(data.value)];
      }
    }

    /** One turn of the materialisation loop. */
    method Copy(ghost before: Tree, files: seq<Item>, canon: string -> string, contents: nat -> Option<Bytes>,
                digest: Bytes -> string, k: nat)
      returns (ok: bool)
      requires k < |files| && PrefixFree(Places(files, canon))
      requires Progress(before, tree, files, canon, contents, digest, k)
      modifies this
      ensures ok <==> Delivers(before, files[k], canon, contents(k), digest)
      ensures ok ==> Progress(before, tree, files, canon, contents, digest, k + 1)
      ensures Undisturbed(before, tree, Places(files, canon))
    {
      ghost var was, places := tree, Places(files, canon);
      ClearIsStable(before, tree, places, k, k);
      ok := Write(Place(files[k].original, canon), contents(k));
      WriteKeeps(before, was, tree, places, k);
      LooseEnds(before, tree, places, k + 1);
      if ok {
        ok := IdentityOf(contents(k).value, digest) == files[k].identity;
        if ok {
          WriteHolds(was, tree, files, canon, contents, digest, k);
        }
      }
    }

    /** The materialisation loop of `rehearse`.  Each file is checked only after its own copy, yet at
        the end every mapped place holds its file, nothing else changed, and the loop succeeds exactly
        when every item on its own could have been delivered into the tree as it was. */
    method Materialise(files: seq<Item>, f: Folding, ghost backup: string -> Option<Identity>, canon: string -> string,
                       contents: nat -> Option<Bytes>, digest: Bytes -> string, late: nat -> bool)
      returns (ok: bool)
      requires Accepted(files, f, backup) && KeepsParts(f) && NoCoarser(canon, f)
      modifies this
      ensures ok <==> AllDeliver(old(tree), files, canon, contents, digest, late, |files|)
      ensures ok ==> Holds(tree, files, canon, contents, digest, |files|)
      ensures Undisturbed(old(tree), tree, Places(files, canon))
    {
      AcceptedPlacesArePrefixFree(files, f, backup, canon);
      ghost var before := tree;
      for k := 0 to |files|
        invariant AllDeliver(before, files, canon, contents, digest, late, k)
        invariant Progress(before, tree, files, canon, contents, digest, k)
        invariant Undisturbed(before, tree, Places(files, canon))
      {
        DeliverNext(before, files, canon, contents, digest, late, k);
        if late(k) {
          return false;
        }
        var copied := Copy(before, files, canon, contents, digest, k);
        if !copied {
          return false;
        }
      }
      ok := true;
    }

    /** Validation, then the Git preparation, which fails or leaves some tree, then materialisation.  The
        replica is touched only once the map is accepted. */
    method Rehearse(files: seq<Item>, f: Folding, backup: string -> Option<Identity>, prepared: Option<Tree>,
                    canon: string -> string, contents: nat -> Option<Bytes>, digest: Bytes -> string,
                    lateCheck: nat -> bool, lateCopy: nat -> bool)
      returns (ok: bool)
      requires KeepsParts(f) && NoCoarser(canon, f)
      modifies this
      ensures ok <==> Passes(files, f, backup, lateCheck) && prepared.Some?
                      && AllDeliver(prepared.value, files, canon, contents, digest, lateCopy, |files|)
      ensures ok ==> Holds(tree, files, canon, contents, digest, |files|)
      ensures Passes(files, f, backup, lateCheck) && prepared.Some? ==>
                Undisturbed(prepared.value, tree, Places(files, canon))
      ensures !Passes(files, f, backup, lateCheck) ==> tree == old(tree)
    {
      ok := ValidateFiles(files, f, backup, lateCheck);
      if !ok || prepared.None? {
        return false;
      }
      tree := prepared.value;
      ok := Materialise(files, f, backup, canon, contents, digest, lateCopy);
    }

    /** The checks that `contained`, `mkdir` and the copy make. */
    method CanWrite(loc: Path) returns (ok: bool)
      ensures ok <==> Clear(tree, loc)
    {
      if loc == [] {
        return false;
      }
      for k := 0 to |loc|
        invariant forall j :: 0 <= j < k ==> !(loc[..j] in tree && tree[loc[..j]] != Dir)
      {
        if loc[..k] in tree && tree[loc[..k]] != Dir {
          return false;
        }
      }
      ok := !(loc in tree && !tree[loc].File?);
    }

    method MakeParents(loc: Path)
      requires Clear(tree, loc)
      modifies this
      ensures OnlyMakesDirs(old(tree), tree, loc)
      ensures loc in tree <==> loc in old(tree)
      ensures forall k :: 0 <= k < |loc| ==> loc[..k] in tree && tree[loc[..k]] == Dir
    {
      ghost var before := tree;
      for k := 0 to |loc|
        invariant OnlyMakesDirs(before, tree, loc)
        invariant loc in tree <==> loc in before
        invariant forall j :: 0 <= j < k ==> loc[..j] in tree && tree[loc[..j]] == Dir
      {
        if loc[..k] !in tree {
          tree := tree[loc[..k] := Dir];
        }
      }
    }
  }
}
