/** The file map of a replay: its validation, and the loop that materialises it. */
module FileMap {
  import opened Wrappers
  import opened Strings
  import opened PortablePaths

  /** What is known of a file: a digest of its bytes and their number. */
  datatype Identity = Identity(sha256: string, bytes: int)

  datatype Item = Item(original: string, archived: string, identity: Identity)

  type Bytes = seq<bv8>

  function IdentityOf(data: Bytes, digest: Bytes -> string): Identity {
    Identity(digest(data), |data|)
  }

  // ---------------------------------------------------------------- validation

  predicate IsDigest(s: string) {
    |s| == 64 && forall k :: 0 <= k < |s| ==> '0' <= s[k] <= '9' || 'a' <= s[k] <= 'f'
  }

  predicate Ordered(files: seq<Item>) {
    forall i, j :: 0 <= i < j < |files| ==> !Less(files[j].original, files[i].original)
  }

  /** One entry on its own: portable paths, a well-formed identity, and a backup that matches it. */
  predicate EntryHolds(item: Item, f: Folding, backup: string -> Option<Identity>) {
    PathsHold(item, f) && IdentityHolds(item, backup)
  }

  predicate PathsHold(item: Item, f: Folding) {
    Relative(item.original, f) && Relative(item.archived, f)
  }

  predicate IdentityHolds(item: Item, backup: string -> Option<Identity>) {
    && IsDigest(item.identity.sha256) && item.identity.bytes >= 0
    && backup(item.archived) == Some(item.identity)
  }

  /** Two entries together. */
  predicate Apart(a: Item, b: Item, f: Folding) {
    !Overlap(Key(a.original, f), Key(b.original, f)) && Key(a.archived, f) != Key(b.archived, f)
  }

  ghost predicate PairwiseApart(files: seq<Item>, f: Folding) {
    forall i, j :: 0 <= i < j < |files| ==> Apart(files[i], files[j], f)
  }

  ghost predicate Accepted(files: seq<Item>, f: Folding, backup: string -> Option<Identity>) {
    && files != []
    && (forall k :: 0 <= k < |files| ==> EntryHolds(files[k], f, backup))
    && PairwiseApart(files, f)
    && Ordered(files)
  }

  function Originals(files: seq<Item>, f: Folding): (r: set<string>) {
    set k | 0 <= k < |files| :: Key(files[k].original, f)
  }

  function Archives(files: seq<Item>, f: Folding): (r: set<string>) {
    set k | 0 <= k < |files| :: Key(files[k].archived, f)
  }

  lemma OverlapIsSymmetric(s: string, t: string)
    ensures Overlap(s, t) <==> Overlap(t, s)
  {
  }

  lemma GrowsApart(files: seq<Item>, k: nat, f: Folding)
    requires k < |files| && PairwiseApart(files[..k], f)
    requires forall other :: other in Originals(files[..k], f) ==> !Overlap(Key(files[k].original, f), other)
    requires Key(files[k].archived, f) !in Archives(files[..k], f)
    ensures PairwiseApart(files[..k + 1], f)
  {
    var before := files[..k];
    forall i, j | 0 <= i < j < k + 1 ensures Apart(files[i], files[j], f) {
      if j < k {
        assert Apart(before[i], before[j], f);
      } else {
        assert before[i] == files[i];
        assert Key(files[i].original, f) in Originals(files[..k], f);
        assert Key(files[i].archived, f) in Archives(files[..k], f);
        OverlapIsSymmetric(Key(files[k].original, f), Key(files[i].original, f));
      }
    }
  }

  lemma NotApart(files: seq<Item>, k: nat, f: Folding)
    requires k < |files|
    requires (exists other :: other in Originals(files[..k], f) && Overlap(Key(files[k].original, f), other))
             || Key(files[k].archived, f) in Archives(files[..k], f)
    ensures !PairwiseApart(files, f)
  {
    if Key(files[k].archived, f) in Archives(files[..k], f) {
      var i :| 0 <= i < k && Key(files[..k][i].archived, f) == Key(files[k].archived, f);
      assert !Apart(files[i], files[k], f);
    } else {
      var other :| other in Originals(files[..k], f) && Overlap(Key(files[k].original, f), other);
      var i :| 0 <= i < k && Key(files[..k][i].original, f) == other;
      OverlapIsSymmetric(Key(files[k].original, f), other);
      assert !Apart(files[i], files[k], f);
    }
  }

  /** The entries before `k` passed, and the two sets hold their keys. */
  ghost predicate PassedTo(files: seq<Item>, k: nat, f: Folding, backup: string -> Option<Identity>, late: nat -> bool,
                           seen: set<string>, archived: set<string>)
    requires k <= |files|
  {
    && (forall j :: 0 <= j < k ==> EntryHolds(files[j], f, backup) && !late(j))
    && PairwiseApart(files[..k], f)
    && seen == Originals(files[..k], f) && archived == Archives(files[..k], f)
  }

  lemma PassNext(files: seq<Item>, k: nat, f: Folding, backup: string -> Option<Identity>,
                                    late: nat -> bool, seen: set<string>, archived: set<string>)
    requires k < |files| && PassedTo(files, k, f, backup, late, seen, archived)
    requires !late(k) && EntryHolds(files[k], f, backup)
    requires forall other :: other in seen ==> !Overlap(Key(files[k].original, f), other)
    requires Key(files[k].archived, f) !in archived
    ensures PassedTo(files, k + 1, f, backup, late,
                     seen + {Key(files[k].original, f)}, archived + {Key(files[k].archived, f)})
  {
    GrowsApart(files, k, f);
    KeysGrow(files, k, f);
  }

  /** What the whole loop accepts. */
  ghost predicate Passes(files: seq<Item>, f: Folding, backup: string -> Option<Identity>, late: nat -> bool) {
    Accepted(files, f, backup) && forall k :: 0 <= k < |files| ==> !late(k)
  }

  lemma EntryRefuses(files: seq<Item>, k: nat, f: Folding, backup: string -> Option<Identity>, late: nat -> bool)
    requires k < |files| && (late(k) || !EntryHolds(files[k], f, backup))
    ensures !Passes(files, f, backup, late)
  {
  }

  lemma PassedAll(files: seq<Item>, f: Folding, backup: string -> Option<Identity>, late: nat -> bool,
                                     seen: set<string>, archived: set<string>)
    requires files != [] && PassedTo(files, |files|, f, backup, late, seen, archived)
    ensures Passes(files, f, backup, late) <==> Ordered(files)
  {
    assert files[..|files|] == files;
  }

  /** The file-map loop of `validate_input`: it accepts exactly the maps whose entries hold one by one
      and pairwise, in order.  `late` says whether the deadline has passed at a given entry. */
  method ValidateFiles(files: seq<Item>, f: Folding, backup: string -> Option<Identity>, late: nat -> bool)
    returns (ok: bool)
    ensures ok <==> Passes(files, f, backup, late)
  {
    if files == [] {
      return false;
    }
    var seen, archived := {}, {};
    for k := 0 to |files|
      invariant PassedTo(files, k, f, backup, late, seen, archived)
    {
      var item := files[k];
      if late(k) || !PathsHold(item, f) {
        EntryRefuses(files, k, f, backup, late);
        return false;
      }
      var key, archiveKey := Key(item.original, f), Key(item.archived, f);
      if (exists other :: other in seen && Overlap(key, other)) || archiveKey in archived {
        NotApart(files, k, f);
        return false;
      }
      if !IdentityHolds(item, backup) {
        EntryRefuses(files, k, f, backup, late);
        return false;
      }
      PassNext(files, k, f, backup, late, seen, archived);
      seen := seen + {key};
      archived := archived + {archiveKey};
    }
    PassedAll(files, f, backup, late, seen, archived);
    ok := Ordered(files);
  }

  lemma KeysGrow(files: seq<Item>, k: nat, f: Folding)
    requires k < |files|
    ensures Originals(files[..k + 1], f) == Originals(files[..k], f) + {Key(files[k].original, f)}
    ensures Archives(files[..k + 1], f) == Archives(files[..k], f) + {Key(files[k].archived, f)}
  {
    var now, before := files[..k + 1], files[..k];
    forall x | x in Originals(now, f) ensures x in Originals(before, f) + {Key(files[k].original, f)} {
      var i :| 0 <= i <= k && x == Key(now[i].original, f);
      assert i < k ==> before[i] == now[i];
    }
    forall x | x in Archives(now, f) ensures x in Archives(before, f) + {Key(files[k].archived, f)} {
      var i :| 0 <= i <= k && x == Key(now[i].archived, f);
      assert i < k ==> before[i] == now[i];
    }
    forall x | x in Originals(before, f) ensures x in Originals(now, f) {
      var i :| 0 <= i < k && x == Key(before[i].original, f);
      assert now[i] == before[i];
    }
    forall x | x in Archives(before, f) ensures x in Archives(now, f) {
      var i :| 0 <= i < k && x == Key(before[i].archived, f);
      assert now[i] == before[i];
    }
    assert now[k] == files[k];
  }

  /** In an accepted map no folded path is equal to, or an ancestor of, another one. */
  lemma AcceptedIsPrefixFree(files: seq<Item>, f: Folding, backup: string -> Option<Identity>, i: nat, j: nat)
    requires Accepted(files, f, backup) && KeepsParts(f) && i < |files| && j < |files| && i != j
    ensures !(Fold(f.full, Split(files[i].original)) <= Fold(f.full, Split(files[j].original)))
  {
    var a, b := Key(files[i].original, f), Key(files[j].original, f);
    assert if i < j then Apart(files[i], files[j], f) else Apart(files[j], files[i], f);
    OverlapIsSymmetric(a, b);
    OverlapIsPrefix(a, b);
    KeyParts(files[i].original, f);
    KeyParts(files[j].original, f);
  }
}
