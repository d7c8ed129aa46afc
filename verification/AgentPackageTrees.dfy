/** File trees: lookup by path, the list of regular files, copies without links, and writes below a
    directory.  A tree is a value; what it holds at a path says everything about it, so a copy or a write
    is described by what it leaves at every path, and the list of files by what the tree holds where. */
module AgentPackageTrees {
  import opened Wrappers
  import opened Strings
  import opened PortablePaths

  type Bytes = seq<bv8>

  datatype Entry = Entry(name: string, node: Tree)

  datatype Tree = File(data: Bytes) | Dir(entries: seq<Entry>) | Link | Other

  predicate UniqueNames(es: seq<Entry>) {
    forall i, j :: 0 <= i < j < |es| ==> es[i].name != es[j].name
  }

  predicate ValidName(name: string) {
    name != "" && name != "." && name != ".." && SlashFree(name)
  }

  /** Directories hold each name once. */
  predicate Proper(t: Tree) {
    t.Dir? ==> UniqueNames(t.entries) && forall k :: 0 <= k < |t.entries| ==>
                 ValidName(t.entries[k].name) && Proper(t.entries[k].node)
  }

  function Get(es: seq<Entry>, name: string): (r: Option<Tree>)
    ensures r.Some? ==> exists k :: 0 <= k < |es| && es[k].name == name && es[k].node == r.value
    ensures r.None? ==> forall k :: 0 <= k < |es| ==> es[k].name != name
  {
    if es == [] then None
    else if es[|es| - 1].name == name then Some(es[|es| - 1].node)
    else Get(es[..|es| - 1], name)
  }

  lemma GetUnique(es: seq<Entry>, k: nat)
    requires UniqueNames(es) && k < |es|
    ensures Get(es, es[k].name) == Some(es[k].node)
  {
    var r := Get(es, es[k].name);
    var i :| 0 <= i < |es| && es[i].name == es[k].name && es[i].node == r.value;
    assert i == k;
  }

  /** What the tree holds at a path; links are not followed. */
  function At(t: Tree, p: Path): Option<Tree> {
    if p == [] then Some(t)
    else if t.Dir? && Get(t.entries, p[0]).Some? then At(Get(t.entries, p[0]).value, p[1..])
    else None
  }

  lemma AtEntry(t: Tree, k: nat, p: Path)
    requires Proper(t) && t.Dir? && k < |t.entries|
    ensures At(t, [t.entries[k].name] + p) == At(t.entries[k].node, p)
  {
    GetUnique(t.entries, k);
    assert ([t.entries[k].name] + p)[1..] == p;
  }

  // ---------------------------------------------------------------- regular files

  datatype Item = Item(path: Path, data: Bytes)

  function Below(name: string, items: seq<Item>): (r: seq<Item>)
    ensures |r| == |items|
    ensures forall k :: 0 <= k < |items| ==> r[k] == Item([name] + items[k].path, items[k].data)
  {
    seq(|items|, k requires 0 <= k < |items| => Item([name] + items[k].path, items[k].data))
  }

  function FilesIn(t: Tree, n: nat): seq<Item>
    requires t.Dir? && n <= |t.entries|
    decreases t, n
  {
    if n == 0 then [] else FilesIn(t, n - 1) + Below(t.entries[n - 1].name, Files(t.entries[n - 1].node))
  }

  /** The regular files, directory by directory. */
  function Files(t: Tree): seq<Item>
    decreases t, if t.Dir? then |t.entries| + 1 else 0
  {
    match t
    case File(data) => [Item([], data)]
    case Dir(entries) => FilesIn(t, |entries|)
    case _ => []
  }

  ghost predicate DistinctPaths(items: seq<Item>) {
    forall i, j :: 0 <= i < j < |items| ==> items[i].path != items[j].path
  }

  /** The path starts with one of the first `n` names. */
  ghost predicate StartsIn(t: Tree, p: Path, n: nat)
    requires t.Dir? && n <= |t.entries|
  {
    p != [] && exists k :: 0 <= k < n && t.entries[k].name == p[0]
  }

  ghost predicate ListsIn(t: Tree, n: nat, items: seq<Item>)
    requires t.Dir? && n <= |t.entries|
  {
    && DistinctPaths(items)
    && (forall i :: 0 <= i < |items| ==> StartsIn(t, items[i].path, n) && At(t, items[i].path) == Some(File(items[i].data)))
    && (forall p :: StartsIn(t, p, n) && At(t, p).Some? && At(t, p).value.File? ==> Item(p, At(t, p).value.data) in items)
  }

  ghost predicate ListsAll(t: Tree, items: seq<Item>) {
    && DistinctPaths(items)
    && (forall i :: 0 <= i < |items| ==> At(t, items[i].path) == Some(File(items[i].data)))
    && (forall p :: At(t, p).Some? && At(t, p).value.File? ==> Item(p, At(t, p).value.data) in items)
  }

  /** The same for the paths through child `k`. */
  ghost predicate ListsChild(t: Tree, k: nat, items: seq<Item>)
    requires t.Dir? && k < |t.entries|
  {
    && DistinctPaths(items)
    && (forall i :: 0 <= i < |items| ==>
          items[i].path != [] && items[i].path[0] == t.entries[k].name && At(t, items[i].path) == Some(File(items[i].data)))
    && (forall p :: p != [] && p[0] == t.entries[k].name && At(t, p).Some? && At(t, p).value.File? ==>
          Item(p, At(t, p).value.data) in items)
  }

  lemma BelowLists(t: Tree, k: nat, items: seq<Item>)
    requires Proper(t) && t.Dir? && k < |t.entries| && ListsAll(t.entries[k].node, items)
    ensures ListsChild(t, k, Below(t.entries[k].name, items))
  {
    var name := t.entries[k].name;
    var below := Below(name, items);
    forall i, j | 0 <= i < j < |below| ensures below[i].path != below[j].path {
      assert below[i].path[1..] == items[i].path && below[j].path[1..] == items[j].path;
    }
    forall i | 0 <= i < |items| ensures At(t, below[i].path) == Some(File(below[i].data)) {
      AtEntry(t, k, items[i].path);
    }
    forall p | p != [] && p[0] == name && At(t, p).Some? && At(t, p).value.File?
      ensures Item(p, At(t, p).value.data) in below
    {
      AtEntry(t, k, p[1..]);
      assert p == [name] + p[1..];
      var i :| 0 <= i < |items| && items[i] == Item(p[1..], At(t, p).value.data);
      assert below[i] == Item(p, At(t, p).value.data);
    }
  }

  lemma AppendLists(t: Tree, k: nat, items: seq<Item>, below: seq<Item>)
    requires t.Dir? && UniqueNames(t.entries) && k < |t.entries| && ListsIn(t, k, items) && ListsChild(t, k, below)
    ensures ListsIn(t, k + 1, items + below)
  {
    var all := items + below;
    forall i, j | 0 <= i < j < |all| ensures all[i].path != all[j].path {
      if i < |items| <= j {
        assert all[j] == below[j - |items|];
        assert StartsIn(t, items[i].path, k);
      }
    }
    forall i | 0 <= i < |all| ensures StartsIn(t, all[i].path, k + 1) && At(t, all[i].path) == Some(File(all[i].data)) {
      if i >= |items| {
        assert all[i] == below[i - |items|];
      } else {
        assert StartsIn(t, items[i].path, k);
      }
    }
    forall p | StartsIn(t, p, k + 1) && At(t, p).Some? && At(t, p).value.File?
      ensures Item(p, At(t, p).value.data) in all
    {
      if p[0] != t.entries[k].name {
        assert StartsIn(t, p, k);
      }
    }
  }

  lemma FilesInNext(t: Tree, n: nat)
    requires t.Dir? && UniqueNames(t.entries) && 0 < n <= |t.entries| && ListsIn(t, n - 1, FilesIn(t, n - 1))
    requires ListsChild(t, n - 1, Below(t.entries[n - 1].name, Files(t.entries[n - 1].node)))
    ensures ListsIn(t, n, FilesIn(t, n))
  {
    AppendLists(t, n - 1, FilesIn(t, n - 1), Below(t.entries[n - 1].name, Files(t.entries[n - 1].node)));
  }

  lemma NothingListed(t: Tree)
    requires t.Dir?
    ensures ListsIn(t, 0, [])
  {
  }

  lemma {:induction false} FilesInExactly(t: Tree, n: nat)
    requires Proper(t) && t.Dir? && n <= |t.entries|
    ensures ListsIn(t, n, FilesIn(t, n))
    decreases t, n
  {
    if n == 0 {
      NothingListed(t);
    } else {
      FilesInExactly(t, n - 1);
      FilesOfEntry(t, n - 1);
      FilesInNext(t, n);
    }
  }

  lemma {:induction false} FilesOfEntry(t: Tree, k: nat)
    requires Proper(t) && t.Dir? && k < |t.entries|
    ensures ListsChild(t, k, Below(t.entries[k].name, Files(t.entries[k].node)))
    decreases t, k
  {
    FilesExactly(t.entries[k].node);
    BelowLists(t, k, Files(t.entries[k].node));
  }

  /** Every regular file of the tree is listed exactly once, with its bytes. */
  lemma {:induction false} FilesExactly(t: Tree)
    requires Proper(t)
    ensures ListsAll(t, Files(t))
    decreases t, if t.Dir? then |t.entries| + 1 else 0
  {
    if t.Dir? {
      FilesInExactly(t, |t.entries|);
      forall p | At(t, p).Some? && At(t, p).value.File? ensures StartsIn(t, p, |t.entries|) {
        assert p != [];
        assert Get(t.entries, p[0]).Some?;
      }
    }
  }

  const ByName: Item -> string := (item: Item) => NameOf(item.path)

  /** `_regular_files`: every regular file below a directory, sorted by its path. */
  function RegularFiles(t: Tree): seq<Item> {
    Sort(Files(t), ByName)
  }

  lemma {:induction false} InsertKeepsDistinct(x: Item, items: seq<Item>)
    requires DistinctPaths(items) && forall k :: 0 <= k < |items| ==> items[k].path != x.path
    ensures DistinctPaths(Insert(x, items, ByName))
  {
    if items != [] && Less(ByName(items[0]), ByName(x)) {
      InsertKeepsDistinct(x, items[1..]);
      InsertMembers(x, items[1..], ByName);
      var r := Insert(x, items[1..], ByName);
      forall j | 0 <= j < |r| ensures r[j].path != items[0].path {
        assert r[j] in r;
        assert r[j] == x || exists k :: 1 <= k < |items| && items[k] == r[j];
      }
    }
  }

  lemma {:induction false} SortKeepsDistinct(items: seq<Item>)
    requires DistinctPaths(items)
    ensures DistinctPaths(Sort(items, ByName))
  {
    if items != [] {
      var rest := items[1..];
      SortKeepsDistinct(rest);
      SortMembers(rest, ByName);
      var r := Sort(rest, ByName);
      forall k | 0 <= k < |r| ensures r[k].path != items[0].path {
        assert r[k] in r;
        assert exists j :: 0 <= j < |rest| && rest[j] == r[k];
      }
      InsertKeepsDistinct(items[0], r);
    }
  }

  /** Every regular file of the tree is listed exactly once, with its bytes, and in the order of names. */
  lemma RegularFilesExactly(t: Tree)
    requires Proper(t)
    ensures ListsAll(t, RegularFiles(t)) && InOrder(RegularFiles(t), ByName)
  {
    FilesExactly(t);
    SortKeepsDistinct(Files(t));
    SortMembers(Files(t), ByName);
    SortOrders(Files(t), ByName);
    forall i | 0 <= i < |RegularFiles(t)|
      ensures At(t, RegularFiles(t)[i].path) == Some(File(RegularFiles(t)[i].data))
    {
      assert RegularFiles(t)[i] in Files(t);
    }
  }

  // ---------------------------------------------------------------- copies

  /** Nothing but files and directories. */
  ghost predicate Plain(t: Tree) {
    forall p :: At(t, p).Some? ==> At(t, p).value.File? || At(t, p).value.Dir?
  }

  function CopyIn(t: Tree, n: nat): Option<seq<Entry>>
    requires t.Dir? && n <= |t.entries|
    decreases t, n
  {
    if n == 0 then Some([])
    else if CopyIn(t, n - 1).None? || Copy(t.entries[n - 1].node).None? then None
    else Some(CopyIn(t, n - 1).value + [Entry(t.entries[n - 1].name, Copy(t.entries[n - 1].node).value)])
  }

  function Copy(t: Tree): Option<Tree>
    decreases t, if t.Dir? then |t.entries| + 1 else 0
  {
    match t
    case File(_) => Some(t)
    case Dir(entries) => if CopyIn(t, |entries|).Some? then Some(Dir(CopyIn(t, |entries|).value)) else None
    case _ => None
  }

  /** `_copy_tree_without_links`: nothing, where the source raises. */
  function CopyTreeWithoutLinks(t: Tree): Option<Tree> {
    if t.Dir? then Copy(t) else None
  }

  ghost predicate PlainIn(t: Tree, n: nat)
    requires t.Dir? && n <= |t.entries|
  {
    forall k :: 0 <= k < n ==> Plain(t.entries[k].node)
  }

  lemma PlainEntries(t: Tree)
    requires Proper(t) && t.Dir?
    ensures Plain(t) <==> PlainIn(t, |t.entries|)
  {
    if Plain(t) {
      forall k, p | 0 <= k < |t.entries| && At(t.entries[k].node, p).Some?
        ensures At(t.entries[k].node, p).value.File? || At(t.entries[k].node, p).value.Dir?
      {
        AtEntry(t, k, p);
      }
    }
    if PlainIn(t, |t.entries|) {
      forall p | At(t, p).Some? ensures At(t, p).value.File? || At(t, p).value.Dir? {
        if p != [] {
          var k :| 0 <= k < |t.entries| && t.entries[k].name == p[0];
          AtEntry(t, k, p[1..]);
          assert p == [p[0]] + p[1..];
        }
      }
    }
  }

  lemma {:induction false} CopyInExactly(t: Tree, n: nat)
    requires Proper(t) && t.Dir? && n <= |t.entries|
    ensures CopyIn(t, n) == if PlainIn(t, n) then Some(t.entries[..n]) else None
    decreases t, n
  {
    if n > 0 {
      var last := t.entries[n - 1];
      CopyInExactly(t, n - 1);
      CopyExactly(last.node);
      assert t.entries[..n] == t.entries[..n - 1] + [last];
      assert PlainIn(t, n) <==> PlainIn(t, n - 1) && Plain(last.node);
    }
  }

  /** A copy exists exactly for trees without links and special files, and it is the same tree. */
  lemma {:induction false} CopyExactly(t: Tree)
    requires Proper(t)
    ensures Copy(t) == if Plain(t) then Some(t) else None
    decreases t, if t.Dir? then |t.entries| + 1 else 0
  {
    if t.Dir? {
      CopyInExactly(t, |t.entries|);
      PlainEntries(t);
      assert t.entries[..|t.entries|] == t.entries;
    } else {
      assert At(t, []) == Some(t);
    }
  }

  // ---------------------------------------------------------------- writes

  function Set(es: seq<Entry>, name: string, node: Tree): seq<Entry> {
    if es == [] then [Entry(name, node)]
    else if es[|es| - 1].name == name then es[..|es| - 1] + [Entry(name, node)]
    else Set(es[..|es| - 1], name, node) + [es[|es| - 1]]
  }

  lemma {:induction false} GetSet(es: seq<Entry>, name: string, node: Tree, other: string)
    ensures Get(Set(es, name, node), other) == if other == name then Some(node) else Get(es, other)
  {
    if es != [] {
      var init, last := es[..|es| - 1], es[|es| - 1];
      if last.name == name {
        assert (init + [Entry(name, node)])[..|init|] == init;
      } else {
        GetSet(init, name, node, other);
        var grown := Set(init, name, node);
        assert (grown + [last])[..|grown|] == grown;
      }
    } else {
      assert [Entry(name, node)][..0] == [];
    }
  }

  lemma {:induction false} SetMembers(es: seq<Entry>, name: string, node: Tree)
    ensures forall e :: e in Set(es, name, node) ==> e == Entry(name, node) || e in es
  {
    if es != [] && es[|es| - 1].name != name {
      SetMembers(es[..|es| - 1], name, node);
    }
  }

  lemma {:induction false} SetUnique(es: seq<Entry>, name: string, node: Tree)
    requires UniqueNames(es)
    ensures UniqueNames(Set(es, name, node))
  {
    if es != [] && es[|es| - 1].name != name {
      var init, last := es[..|es| - 1], es[|es| - 1];
      SetUnique(init, name, node);
      SetMembers(init, name, node);
      var grown := Set(init, name, node);
      forall i | 0 <= i < |grown| ensures grown[i].name != last.name {
        assert grown[i] in grown;
      }
    }
  }

  lemma SetProper(es: seq<Entry>, name: string, node: Tree)
    requires Proper(Dir(es)) && ValidName(name) && Proper(node)
    ensures Proper(Dir(Set(es, name, node)))
  {
    SetUnique(es, name, node);
    SetMembers(es, name, node);
    var grown := Set(es, name, node);
    forall k | 0 <= k < |grown| ensures ValidName(grown[k].name) && Proper(grown[k].node) {
      assert grown[k] in grown;
    }
  }

  /** `mkdir` of the parents, then a copy to the path: nothing, where the source raises. */
  function Put(t: Tree, p: Path, data: Bytes): Option<Tree>
    requires p != []
    decreases |p|
  {
    if !t.Dir? then None
    else
      var there := Get(t.entries, p[0]);
      if |p| == 1 then
        if there.Some? && !there.value.File? then None else Some(Dir(Set(t.entries, p[0], File(data))))
      else
        var sub := Put(if there.Some? then there.value else Dir([]), p[1..], data);
        if sub.None? then None else Some(Dir(Set(t.entries, p[0], sub.value)))
  }

  /** A write succeeds when every parent is a directory or missing and the leaf is a file or missing. */
  ghost predicate Free(t: Tree, p: Path) {
    && (forall k :: 0 <= k < |p| ==> (At(t, p[..k]).Some? ==> At(t, p[..k]).value.Dir?))
    && (At(t, p).Some? ==> At(t, p).value.File?)
  }

  /** What a tree holds after a write. */
  function AfterPut(t: Tree, p: Path, data: Bytes, q: Path): Option<Tree> {
    if q == p then Some(File(data)) else if p <= q then None else At(t, q)
  }

  /** A write puts the file at its path, makes the directories above it, and changes nothing else. */
  ghost predicate PutHolds(t: Tree, u: Tree, p: Path, data: Bytes) {
    forall q :: if q < p then At(u, q).Some? && At(u, q).value.Dir? else At(u, q) == AfterPut(t, p, data, q)
  }

  lemma FreeBelow(t: Tree, p: Path)
    requires Free(t, p) && |p| > 1
    ensures t.Dir?
    ensures Free(if Get(t.entries, p[0]).Some? then Get(t.entries, p[0]).value else Dir([]), p[1..])
  {
    assert At(t, p[..0]).Some?;
    var sub := if Get(t.entries, p[0]).Some? then Get(t.entries, p[0]).value else Dir([]);
    forall k | 0 <= k < |p[1..]| ensures At(sub, p[1..][..k]).Some? ==> At(sub, p[1..][..k]).value.Dir? {
      assert p[..k + 1][1..] == p[1..][..k];
      if Get(t.entries, p[0]).Some? {
        assert At(t, p[..k + 1]) == At(sub, p[1..][..k]);
      }
    }
  }

  lemma {:induction false} PutExactly(t: Tree, p: Path, data: Bytes)
    requires p != [] && Proper(t) && Free(t, p) && forall k :: 0 <= k < |p| ==> ValidName(p[k])
    ensures Put(t, p, data).Some? && Proper(Put(t, p, data).value)
    ensures PutHolds(t, Put(t, p, data).value, p, data)
    decreases |p|
  {
    assert At(t, p[..0]).Some?;
    var there := Get(t.entries, p[0]);
    var node;
    if |p| == 1 {
      assert there.Some? ==> At(t, p) == At(there.value, []);
      node := File(data);
    } else {
      FreeBelow(t, p);
      var child := if there.Some? then there.value else Dir([]);
      PutExactly(child, p[1..], data);
      node := Put(child, p[1..], data).value;
    }
    SetProper(t.entries, p[0], node);
    PutLifts(t, p, data, node);
  }

  lemma PutLifts(t: Tree, p: Path, data: Bytes, node: Tree)
    requires p != [] && t.Dir?
    requires var there := Get(t.entries, p[0]);
             if |p| == 1 then node == File(data)
             else PutHolds(if there.Some? then there.value else Dir([]), node, p[1..], data)
    ensures PutHolds(t, Dir(Set(t.entries, p[0], node)), p, data)
  {
    var u := Dir(Set(t.entries, p[0], node));
    forall q ensures if q < p then At(u, q).Some? && At(u, q).value.Dir? else At(u, q) == AfterPut(t, p, data, q) {
      if q != [] {
        GetSet(t.entries, p[0], node, q[0]);
        if q[0] == p[0] {
          PutLiftsAt(t, p, data, node, q);
        }
      }
    }
  }

  lemma PutLiftsAt(t: Tree, p: Path, data: Bytes, node: Tree, q: Path)
    requires p != [] && t.Dir? && q != [] && q[0] == p[0]
    requires var there := Get(t.entries, p[0]);
             if |p| == 1 then node == File(data)
             else PutHolds(if there.Some? then there.value else Dir([]), node, p[1..], data)
    ensures if q < p then At(node, q[1..]).Some? && At(node, q[1..]).value.Dir?
            else At(node, q[1..]) == AfterPut(t, p, data, q)
  {
    assert q == [q[0]] + q[1..] && p == [p[0]] + p[1..];
    assert q < p <==> q[1..] < p[1..];
    assert p <= q <==> p[1..] <= q[1..];
    assert q == p <==> q[1..] == p[1..];
  }
}
