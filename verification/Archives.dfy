/** Release archives: building one from a package tree, and validating any list of archive entries. */
module Archives {
  import opened Wrappers
  import opened PortablePaths
  import opened AgentPackageTrees
  import opened AgentPackageRules
  import opened AgentPackages
  import opened AgentPackageBuild
  import opened JsonOrder
  import M = AgentPackageManifests

  datatype Kind = Unset | Regular | Directory | Symlink | Special

  datatype ZipEntry = ZipEntry(name: string, kind: Kind, data: Bytes)

  /** An entry as an archive lists it: a declared size, and its data unless reading it raises. */
  datatype Stored = Stored(name: string, kind: Kind, size: nat, data: Option<Bytes>)

  function Readable(ss: seq<Stored>): (r: seq<bool>)
    ensures |r| == |ss| && forall k :: 0 <= k < |ss| ==> r[k] == ss[k].data.Some?
  {
    seq(|ss|, k requires 0 <= k < |ss| => ss[k].data.Some?)
  }

  predicate AllReadable(ss: seq<Stored>) {
    false !in Readable(ss)
  }

  function Entries(ss: seq<Stored>): (es: seq<ZipEntry>)
    ensures |es| == |ss|
    ensures forall k :: 0 <= k < |ss| ==>
              es[k] == ZipEntry(ss[k].name, ss[k].kind, if ss[k].data.Some? then ss[k].data.value else [])
  {
    seq(|ss|, k requires 0 <= k < |ss| =>
      ZipEntry(ss[k].name, ss[k].kind, if ss[k].data.Some? then ss[k].data.value else []))
  }

  /** How the entries that were written are listed. */
  function Listed(es: seq<ZipEntry>): (ss: seq<Stored>)
    ensures |ss| == |es| && AllReadable(ss) && Entries(ss) == es
    ensures forall k :: 0 <= k < |es| ==> ss[k].size == |es[k].data|
  {
    seq(|es|, k requires 0 <= k < |es| => Stored(es[k].name, es[k].kind, |es[k].data|, Some(es[k].data)))
  }

  /** The parts of a relative POSIX path: empty parts and single dots do not count. */
  function NormalParts(parts: Path): Path {
    if parts == [] then []
    else (if parts[0] == "" || parts[0] == "." then [] else [parts[0]]) + NormalParts(parts[1..])
  }

  function PosixParts(name: string): Path {
    NormalParts(Split(name))
  }

  /** `_require_safe_archive_name` accepts the name. */
  predicate SafeName(name: string) {
    && name != "" && name[0] != '/' && BackslashFree(name)
    && PosixParts(name) != [] && ".." !in PosixParts(name)
  }

  predicate BackslashFree(s: string) {
    forall k :: 0 <= k < |s| ==> s[k] != '\\'
  }

  /** One entry on its own. */
  predicate EntryHolds(e: ZipEntry) {
    && SafeName(e.name)
    && PosixParts(e.name)[0] in PACKAGE_ROOTS
    && !Forbidden(PosixParts(e.name)) && !SecretLike(Leaf(PosixParts(e.name)))
    && (e.kind.Unset? || e.kind.Regular?) && e.name[|e.name| - 1] != '/'
  }

  ghost predicate DistinctNames(es: seq<ZipEntry>) {
    forall i, j :: 0 <= i < j < |es| ==> es[i].name != es[j].name
  }

  ghost predicate Fresh(name: string, es: seq<ZipEntry>) {
    forall k :: 0 <= k < |es| ==> es[k].name != name
  }

  /** Every entry holds and has a name of its own. */
  ghost predicate EntriesHold(es: seq<ZipEntry>) {
    EachHolds(es) && FreshNames(es)
  }

  ghost predicate EachHolds(es: seq<ZipEntry>) {
    es == [] || (EachHolds(es[..|es| - 1]) && EntryHolds(es[|es| - 1]))
  }

  ghost predicate FreshNames(es: seq<ZipEntry>) {
    es == [] || (FreshNames(es[..|es| - 1]) && Fresh(es[|es| - 1].name, es[..|es| - 1]))
  }

  lemma {:induction false} EachHoldsAt(es: seq<ZipEntry>, e: ZipEntry, k: nat)
    requires EachHolds(es) && k < |es| && es[k] == e
    ensures EntryHolds(e)
  {
    if k < |es| - 1 {
      EachHoldsAt(es[..|es| - 1], e, k);
    }
  }

  lemma {:induction false} EachHoldsAll(es: seq<ZipEntry>)
    requires forall k :: 0 <= k < |es| ==> EntryHolds(es[k])
    ensures EachHolds(es)
  {
    if es != [] {
      EachHoldsAll(es[..|es| - 1]);
    }
  }

  lemma {:induction false} FreshNamesAreDistinct(es: seq<ZipEntry>)
    ensures FreshNames(es) <==> DistinctNames(es)
  {
    if es != [] {
      var init := es[..|es| - 1];
      FreshNamesAreDistinct(init);
      assert forall j :: 0 <= j < |init| ==> init[j] == es[j];
    }
  }

  type Content = map<string, Bytes>

  /** The content map holds exactly the entries. */
  ghost predicate Contains(content: Content, es: seq<ZipEntry>) {
    && (forall k :: 0 <= k < |es| ==> es[k].name in content && content[es[k].name] == es[k].data)
    && NamedIn(content, es)
  }

  ghost predicate NamedIn(content: Content, es: seq<ZipEntry>) {
    forall n :: n in content ==> exists k :: 0 <= k < |es| && es[k].name == n
  }

  predicate HasDoc(name: string) {
    exists k :: 0 <= k < |DOCS| && name == Join(PathOf(DOCS[k]))
  }

  predicate ManifestAccepted(content: Content, version: Option<string>, parse: Parser) {
    && "plugin.json" in content
    && var m := parse(content["plugin.json"]);
       m.Some? && M.Accepted(m.value, version)
  }

  ghost predicate DocsIncluded(content: Content, docs: seq<Doc>) {
    forall k :: 0 <= k < |docs| ==> Join(PathOf(docs[k])) in content
  }

  ghost predicate OnlyDocNames(content: Content) {
    forall n :: n in content && "docs/" <= n ==> HasDoc(n)
  }

  /** The content map is the package's own map of regular files. */
  ghost predicate SameFiles(content: Content, items: seq<Item>)
    requires Rooted(items)
  {
    && (forall n :: n in content ==> exists k :: 0 <= k < |items| && n == Join(items[k].path))
    && (forall k :: 0 <= k < |items| ==>
          Join(items[k].path) in content && content[Join(items[k].path)] == items[k].data)
  }

  ghost predicate Rooted(items: seq<Item>) {
    forall k :: 0 <= k < |items| ==> items[k].path != []
  }

  ghost predicate ContentHolds(content: Content, version: Option<string>, parse: Parser) {
    && "mcp.json" !in content
    && ManifestAccepted(content, version, parse)
    && DocsIncluded(content, DOCS)
    && OnlyDocNames(content)
  }

  function Expanded(ss: seq<Stored>): nat {
    if ss == [] then 0 else Expanded(ss[..|ss| - 1]) + ss[|ss| - 1].size
  }

  // ---------------------------------------------------------------- building

  /** The entries an archive of these files has. */
  function Zipped(items: seq<Item>): (es: seq<ZipEntry>)
    requires forall k :: 0 <= k < |items| ==> items[k].path != []
    ensures |es| == |items|
    ensures forall k :: 0 <= k < |items| ==> es[k] == ZipEntry(Join(items[k].path), Regular, items[k].data)
  {
    seq(|items|, k requires 0 <= k < |items| => ZipEntry(Join(items[k].path), Regular, items[k].data))
  }

  ghost predicate SafeItems(items: seq<Item>)
    requires Rooted(items)
  {
    forall k :: 0 <= k < |items| ==> SafeName(Join(items[k].path))
  }

  /** `build_archive` over the regular files of a package; nothing, where the source raises. */
  method BuildArchive(items: seq<Item>) returns (r: Option<seq<ZipEntry>>)
    requires Rooted(items)
    ensures r == if SafeItems(items) then Some(Zipped(items)) else None
  {
    var es := [];
    for k := 0 to |items|
      invariant |es| == k && forall j :: 0 <= j < k ==>
                  SafeName(Join(items[j].path)) && es[j] == ZipEntry(Join(items[j].path), Regular, items[j].data)
    {
      if !SafeName(Join(items[k].path)) {
        return None;
      }
      es := es + [ZipEntry(Join(items[k].path), Regular, items[k].data)];
    }
    assert es == Zipped(items);
    r := Some(es);
  }

  // ---------------------------------------------------------------- validating

  /** The issues about one entry, and whether its data is kept. */
  method CheckEntry(e: ZipEntry, content: Content) returns (issues: seq<Issue>, keep: bool)
    ensures issues == [] <==> EntryHolds(e) && e.name !in content
    ensures issues == [] ==> keep
    ensures keep ==> e.name !in content
  {
    issues, keep := [], false;
    if !SafeName(e.name) {
      issues := [Issue(ArchivePathInvalid, [e.name])];
      return;
    }
    var parts := PosixParts(e.name);
    if parts[0] !in PACKAGE_ROOTS {
      issues := issues + [Issue(ArchiveRootInvalid, parts)];
    }
    if Forbidden(parts) {
      issues := issues + [Issue(ForbiddenComponent, parts)];
    }
    if SecretLike(Leaf(parts)) {
      issues := issues + [Issue(SecretLikeRejected, parts)];
    }
    if e.kind.Special? {
      issues := issues + [Issue(NonRegularRejected, parts)];
    } else if e.name in content {
      issues := issues + [Issue(DuplicatePath, parts)];
    } else if e.kind.Symlink? {
      issues := issues + [Issue(SymlinkEntry, parts)];
    } else if e.name[|e.name| - 1] == '/' || e.kind.Directory? {
      issues := issues + [Issue(DirectoryEntry, parts)];
    } else {
      keep := true;
    }
  }

  /** What the entry loop knows: nothing was found exactly when the entries hold, and then their data
      is in the content map; the names are its keys. */
  ghost predicate Read(es: seq<ZipEntry>, issues: seq<Issue>, names: seq<string>, content: Content) {
    && (issues == [] <==> EntriesHold(es))
    && (issues == [] ==> Contains(content, es))
    && NamedIn(content, es)
    && (forall n :: n in content <==> n in names)
  }

  lemma ReadNext(
      es: seq<ZipEntry>, e: ZipEntry, issues: seq<Issue>, names: seq<string>, content: Content, more: seq<Issue>, keep: bool)
    requires Read(es, issues, names, content)
    requires more == [] <==> EntryHolds(e) && e.name !in content
    requires (more == [] ==> keep) && (keep ==> e.name !in content)
    ensures Read(es + [e], issues + more, if keep then names + [e.name] else names,
                 if keep then content[e.name := e.data] else content)
  {
    BothEmpty(issues, more);
    EntriesNext(es, e);
    if issues == [] {
      KnownIsFresh(content, es, e.name);
    }
    NamesNext(content, es, e, keep);
    if issues == [] && keep {
      ContainsNext(content, es, e);
    }
  }

  lemma KnownIsFresh(content: Content, es: seq<ZipEntry>, name: string)
    requires Contains(content, es)
    ensures name in content <==> !Fresh(name, es)
  {
  }

  lemma ContainsNext(content: Content, es: seq<ZipEntry>, e: ZipEntry)
    requires Contains(content, es) && e.name !in content
    ensures Contains(content[e.name := e.data], es + [e])
  {
    NamesNext(content, es, e, true);
  }

  lemma NamesNext(content: Content, es: seq<ZipEntry>, e: ZipEntry, keep: bool)
    requires NamedIn(content, es)
    ensures NamedIn(if keep then content[e.name := e.data] else content, es + [e])
  {
    var now := if keep then content[e.name := e.data] else content;
    assert (es + [e])[|es|] == e;
    forall n | n in now ensures exists k :: 0 <= k < |es + [e]| && (es + [e])[k].name == n {
      if n in content {
        var k :| 0 <= k < |es| && es[k].name == n;
        assert (es + [e])[k].name == n;
      }
    }
  }

  lemma EntriesNext(es: seq<ZipEntry>, e: ZipEntry)
    ensures EntriesHold(es + [e]) <==> EntriesHold(es) && EntryHolds(e) && Fresh(e.name, es)
  {
    assert (es + [e])[..|es|] == es;
  }

  /** One turn of the loop over the entries; data that cannot be read ends the loop at once. */
  method ReadOne(e: ZipEntry, readable: bool, issues: seq<Issue>, names: seq<string>, content: Content, ghost before: seq<ZipEntry>)
    returns (issues': seq<Issue>, names': seq<string>, content': Content, stop: bool)
    requires Read(before, issues, names, content)
    ensures !readable || issues != [] ==> issues' != []
    ensures stop ==> !readable && forall n :: n in content' <==> n in names'
    ensures !stop ==> Read(before + [e], issues', names', content')
  {
    var more, keep := CheckEntry(e, content);
    ReadNext(before, e, issues, names, content, more, keep);
    BothEmpty(issues, more);
    issues', names', content', stop := issues + more, names, content, false;
    if keep {
      stop := !readable;
      if stop {
        issues' := issues' + [Issue(ArchiveUnreadable, [e.name])];
      } else {
        names', content' := names + [e.name], content[e.name := e.data];
      }
    }
  }

  lemma OneMore<T>(xs: seq<T>, k: nat)
    requires k < |xs|
    ensures xs[..k] + [xs[k]] == xs[..k + 1]
  {
  }

  /** The loop over the entries. */
  method ReadEntries(es: seq<ZipEntry>, readable: seq<bool>) returns (issues: seq<Issue>, names: seq<string>, content: Content)
    requires |es| == |readable|
    ensures issues == [] <==> (false !in readable) && EntriesHold(es)
    ensures issues == [] ==> Contains(content, es)
    ensures forall n :: n in content <==> n in names
  {
    issues, names, content := [], [], map[];
    for k := 0 to |es|
      invariant Read(es[..k], issues, names, content)
      invariant issues == [] ==> false !in readable[..k]
    {
      var stop;
      issues, names, content, stop := ReadOne(es[k], readable[k], issues, names, content, es[..k]);
      if stop {
        return;
      }
      OneMore(es, k);
      OneMore(readable, k);
    }
    assert es[..|es|] == es && readable[..|es|] == readable;
  }

  method CheckDocs(content: Content, docs: seq<Doc>) returns (issues: seq<Issue>)
    ensures issues == [] <==> DocsIncluded(content, docs)
  {
    issues := [];
    for k := 0 to |docs|
      invariant issues == [] <==> forall j :: 0 <= j < k ==> Join(PathOf(docs[j])) in content
    {
      if Join(PathOf(docs[k])) !in content {
        issues := issues + [Issue(RequiredInvalid, PathOf(docs[k]))];
      }
    }
  }

  method CheckNames(content: Content, names: seq<string>) returns (issues: seq<Issue>)
    requires forall n :: n in content <==> n in names
    ensures issues == [] <==> OnlyDocNames(content)
  {
    issues := [];
    for k := 0 to |names|
      invariant issues == [] <==> forall j :: 0 <= j < k && "docs/" <= names[j] ==> HasDoc(names[j])
    {
      if "docs/" <= names[k] && !HasDoc(names[k]) {
        issues := issues + [Issue(ResourceUnexpected, [names[k]])];
      }
    }
  }

  method CheckAgainst(content: Content, items: seq<Item>) returns (issues: seq<Issue>)
    requires Rooted(items)
    ensures issues == [] <==> SameFiles(content, items)
  {
    var expected := set k | 0 <= k < |items| :: Join(items[k].path);
    issues := if content.Keys != expected then [Issue(ContentMismatch, [])] else [];
    for k := 0 to |items|
      invariant issues == [] <==>
        content.Keys == expected && forall j :: 0 <= j < k ==>
          Join(items[j].path) in content && content[Join(items[j].path)] == items[j].data
    {
      var name := Join(items[k].path);
      if name !in content || content[name] != items[k].data {
        issues := issues + [Issue(FileMismatch, items[k].path)];
      }
    }
    assert forall k :: 0 <= k < |items| ==> Join(items[k].path) in expected;
    assert content.Keys == expected <==>
           (forall n :: n in content ==> n in expected) && (forall k :: 0 <= k < |items| ==> Join(items[k].path) in content);
  }

  /** `validate_archive` finds nothing. */
  ghost predicate ArchiveHolds(archive: Option<seq<Stored>>, size: nat, content: Content, package: Option<seq<Item>>,
                               version: Option<string>, parse: Parser)
    requires package.Some? ==> Rooted(package.value)
  {
    && size <= MAX_PACKAGE_BYTES && archive.Some?
    && var ss := archive.value;
    && Expanded(ss) <= MAX_PACKAGE_BYTES
    && AllReadable(ss) && EntriesHold(Entries(ss)) && Contains(content, Entries(ss))
    && ContentHolds(content, version, parse)
    && (package.Some? ==> SameFiles(content, package.value))
  }

  method CountExpanded(ss: seq<Stored>) returns (total: nat)
    ensures total == Expanded(ss)
  {
    total := 0;
    for k := 0 to |ss|
      invariant total == Expanded(ss[..k])
    {
      assert ss[..k + 1][..k] == ss[..k];
      total := total + ss[k].size;
    }
    assert ss[..|ss|] == ss;
  }

  method CheckManifestEntry(content: Content, version: Option<string>, parse: Parser) returns (issues: seq<Issue>)
    ensures issues == [] <==> "mcp.json" !in content && ManifestAccepted(content, version, parse)
  {
    issues := if "mcp.json" in content then [Issue(PortableMcp, ["mcp.json"])] else [];
    if "plugin.json" !in content {
      issues := issues + [Issue(ManifestMissing, ["plugin.json"])];
    } else {
      var m := parse(content["plugin.json"]);
      if m.None? {
        issues := issues + [Issue(ManifestUnreadable, ["plugin.json"])];
      } else if !M.Accepted(m.value, version) {
        issues := issues + [Issue(ManifestInvalid, ["plugin.json"])];
      }
    }
  }

  /** The checks on the content map as a whole. */
  method CheckContent(content: Content, names: seq<string>, version: Option<string>, parse: Parser)
    returns (issues: seq<Issue>)
    requires forall n :: n in content <==> n in names
    ensures issues == [] <==> ContentHolds(content, version, parse)
  {
    issues := CheckManifestEntry(content, version, parse);
    var required := CheckDocs(content, DOCS);
    var foreign := CheckNames(content, names);
    BothEmpty(issues, required);
    BothEmpty(issues + required, foreign);
    issues := issues + required + foreign;
  }

  /** The checks after the entries were read, or failed to be. */
  method CheckRead(content: Content, names: seq<string>, package: Option<seq<Item>>, version: Option<string>, parse: Parser)
    returns (issues: seq<Issue>)
    requires package.Some? ==> Rooted(package.value)
    requires forall n :: n in content <==> n in names
    ensures issues == [] <==> ContentHolds(content, version, parse) && (package.Some? ==> SameFiles(content, package.value))
  {
    issues := CheckContent(content, names, version, parse);
    if package.Some? {
      var differences := CheckAgainst(content, package.value);
      BothEmpty(issues, differences);
      issues := issues + differences;
    }
  }

  /** `validate_archive`, for a file that is an archive or is not one: it finds nothing exactly when the
      archive satisfies its specification. */
  method ValidateArchive(archive: Option<seq<Stored>>, size: nat, package: Option<seq<Item>>, version: Option<string>, parse: Parser)
    returns (issues: seq<Issue>, content: Content)
    requires package.Some? ==> Rooted(package.value)
    ensures issues == [] ==> ArchiveHolds(archive, size, content, package, version, parse)
    ensures (exists c :: ArchiveHolds(archive, size, c, package, version, parse)) ==> issues == []
  {
    issues := if size > MAX_PACKAGE_BYTES then [Issue(ArchiveTooLarge, [])] else [];
    content := map[];
    var found, names := [Issue(ArchiveUnreadable, [])], [];
    if archive.Some? {
      var total := CountExpanded(archive.value);
      if total > MAX_PACKAGE_BYTES {
        issues := [Issue(ExpandedTooLarge, [])];
        return;
      }
      found, names, content := ReadEntries(Entries(archive.value), Readable(archive.value));
    }
    var whole := CheckRead(content, names, package, version, parse);
    BothEmpty(issues, found);
    BothEmpty(issues + found, whole);
    issues := issues + found + whole;
    if archive.Some? {
      forall c | ArchiveHolds(archive, size, c, package, version, parse) ensures issues == [] {
        ContentIsUnique(c, content, Entries(archive.value));
      }
    }
  }

  lemma ContentIsUnique(a: Content, b: Content, es: seq<ZipEntry>)
    requires Contains(a, es) && Contains(b, es)
    ensures a == b
  {
    forall n | n in a ensures n in b && b[n] == a[n] {
      var k :| 0 <= k < |es| && es[k].name == n;
    }
    forall n | n in b ensures n in a {
      var k :| 0 <= k < |es| && es[k].name == n;
    }
  }

  // ---------------------------------------------------------------- names

  ghost predicate PathOk(p: Path) {
    p != [] && forall k :: 0 <= k < |p| ==> ValidName(p[k])
  }

  lemma {:induction false} NormalPartsAreParts(p: Path)
    requires forall k :: 0 <= k < |p| ==> ValidName(p[k])
    ensures NormalParts(p) == p
  {
    if p != [] {
      assert ValidName(p[0]);
      NormalPartsAreParts(p[1..]);
      assert [p[0]] + p[1..] == p;
    }
  }

  lemma JoinedParts(p: Path)
    requires PathOk(p)
    ensures Split(Join(p)) == p && PosixParts(Join(p)) == p
  {
    assert forall k :: 0 <= k < |p| ==> ValidName(p[k]);
    SplitJoin(p);
    NormalPartsAreParts(p);
  }

  lemma {:induction false} JoinedEnds(p: Path)
    requires PathOk(p)
    ensures Join(p) != "" && Join(p)[0] == p[0][0] && Join(p)[|Join(p)| - 1] == p[|p| - 1][|p[|p| - 1]| - 1]
  {
    assert ValidName(p[0]) && ValidName(p[|p| - 1]);
    if |p| > 1 {
      JoinedEnds(p[1..]);
    }
  }

  lemma {:induction false} JoinedBackslashes(p: Path)
    requires p != []
    ensures BackslashFree(Join(p)) <==> forall k :: 0 <= k < |p| ==> BackslashFree(p[k])
  {
    if |p| > 1 {
      JoinedBackslashes(p[1..]);
      ConcatBackslashes(p[0] + "/", Join(p[1..]));
      ConcatBackslashes(p[0], "/");
      assert forall k :: 1 <= k < |p| ==> p[k] == p[1..][k - 1];
      assert forall k :: 0 <= k < |p[1..]| ==> p[1..][k] == p[k + 1];
    }
  }

  lemma ConcatBackslashes(s: string, t: string)
    ensures BackslashFree(s + t) <==> BackslashFree(s) && BackslashFree(t)
  {
    assert forall k :: 0 <= k < |s| ==> (s + t)[k] == s[k];
    assert forall k :: 0 <= k < |t| ==> (s + t)[|s| + k] == t[k];
  }

  /** Of the names a file tree can have, exactly those with a backslash are refused. */
  lemma SafeNamesExactly(p: Path)
    requires PathOk(p)
    ensures SafeName(Join(p)) <==> forall k :: 0 <= k < |p| ==> BackslashFree(p[k])
  {
    JoinedParts(p);
    JoinedEnds(p);
    JoinedBackslashes(p);
    assert ValidName(p[0]);
    assert forall k :: 0 <= k < |p| ==> ValidName(p[k]);
  }

  // ---------------------------------------------------------------- names and places

  predicate Normal(part: string) {
    part != "" && part != "."
  }

  /** The entry's name is the usual spelling of its place. */
  predicate Canonical(name: string) {
    name == NameOf(PosixParts(name))
  }

  lemma {:induction false} NormalPartsAreNormal(p: Path)
    ensures forall k :: 0 <= k < |NormalParts(p)| ==> Normal(NormalParts(p)[k])
    ensures (forall k :: 0 <= k < |p| ==> SlashFree(p[k])) ==> forall k :: 0 <= k < |NormalParts(p)| ==> SlashFree(NormalParts(p)[k])
    ensures (forall k :: 0 <= k < |p| ==> Normal(p[k])) ==> NormalParts(p) == p
  {
    if p != [] {
      NormalPartsAreNormal(p[1..]);
      assert forall k :: 0 <= k < |p[1..]| ==> p[1..][k] == p[k + 1];
      assert p == [p[0]] + p[1..];
    }
  }

  /** A name is canonical exactly when it has no empty part and no part that is a single dot. */
  lemma CanonicalExactly(name: string)
    requires SafeName(name)
    ensures Canonical(name) <==> forall k :: 0 <= k < |Split(name)| ==> Normal(Split(name)[k])
  {
    NormalPartsAreNormal(Split(name));
    JoinSplit(name);
    SplitJoin(PosixParts(name));
  }

  /** The same entry, spelled with a dot in front. */
  function Twin(s: Stored): Stored {
    s.(name := "./" + s.name)
  }

  /** Archives that are validated without a package can name a place twice: whatever archive is accepted,
      the twin of any of its entries can be added, within the size bounds, and the archive is accepted
      still.  The twin has another name for the same place. */
  lemma DotTwin(ss: seq<Stored>, k: nat, size: nat, more: nat, content: Content, version: Option<string>, parse: Parser)
    requires ArchiveHolds(Some(ss), size, content, None, version, parse)
    requires k < |ss| && Twin(ss[k]).name !in content
    requires more <= MAX_PACKAGE_BYTES && Expanded(ss) + ss[k].size <= MAX_PACKAGE_BYTES
    ensures PosixParts(Twin(ss[k]).name) == PosixParts(ss[k].name) && Twin(ss[k]).name != ss[k].name
    ensures !Canonical(Twin(ss[k]).name)
    ensures ss[k].data.Some?
    ensures ArchiveHolds(Some(ss + [Twin(ss[k])]), more, content[Twin(ss[k]).name := ss[k].data.value], None, version, parse)
  {
    var twin := Twin(ss[k]);
    ReadableAt(ss, k);
    TwinEntry(Entries(ss), k, content, twin.name);
    DottedIsUnseen(content, twin.name, ss[k].data.value, version, parse);
    ExtendedHolds(ss, twin, more, content[twin.name := ss[k].data.value], version, parse);
  }

  lemma ExtendedHolds(ss: seq<Stored>, s: Stored, size: nat, content: Content, version: Option<string>, parse: Parser)
    requires AllReadable(ss) && s.data.Some? && size <= MAX_PACKAGE_BYTES && Expanded(ss) + s.size <= MAX_PACKAGE_BYTES
    requires var es := Entries(ss) + [ZipEntry(s.name, s.kind, s.data.value)]; EntriesHold(es) && Contains(content, es)
    requires ContentHolds(content, version, parse)
    ensures ArchiveHolds(Some(ss + [s]), size, content, None, version, parse)
  {
    MoreEntries(ss, s);
  }

  lemma TwinEntry(es: seq<ZipEntry>, k: nat, content: Content, name: string)
    requires EntriesHold(es) && Contains(content, es)
    requires k < |es| && name == "./" + es[k].name && name !in content
    ensures var e := es[k];
            && EntriesHold(es + [e.(name := name)]) && Contains(content[name := e.data], es + [e.(name := name)])
            && PosixParts(name) == PosixParts(e.name) && name != e.name && !Canonical(name)
  {
    var e := es[k];
    EachHoldsAt(es, e, k);
    TwinHolds(e);
    CanonicalExactly(name);
    KnownIsFresh(content, es, name);
    EntriesNext(es, e.(name := name));
    ContainsNext(content, es, e.(name := name));
  }

  lemma ReadableAt(ss: seq<Stored>, k: nat)
    requires AllReadable(ss) && k < |ss|
    ensures ss[k].data.Some?
  {
    assert Readable(ss)[k] in Readable(ss);
  }

  lemma MoreEntries(ss: seq<Stored>, s: Stored)
    requires AllReadable(ss) && s.data.Some?
    ensures AllReadable(ss + [s]) && Expanded(ss + [s]) == Expanded(ss) + s.size
    ensures Entries(ss + [s]) == Entries(ss) + [ZipEntry(s.name, s.kind, s.data.value)]
  {
    assert (ss + [s])[..|ss|] == ss;
    assert Readable(ss + [s]) == Readable(ss) + [true];
  }

  /** No check on the content map looks at a name that starts with a dot. */
  lemma DottedIsUnseen(content: Content, name: string, data: Bytes, version: Option<string>, parse: Parser)
    requires ContentHolds(content, version, parse) && name !in content && name != "" && name[0] == '.'
    ensures ContentHolds(content[name := data], version, parse)
  {
    assert name != "plugin.json" && name != "mcp.json";
    assert !("docs/" <= name) by {
      assert "docs/"[0] == 'd';
    }
  }

  lemma TwinHolds(e: ZipEntry)
    requires EntryHolds(e)
    ensures EntryHolds(e.(name := "./" + e.name)) && PosixParts("./" + e.name) == PosixParts(e.name)
    ensures Split("./" + e.name)[0] == "." && "./" + e.name != e.name
  {
    var name := "./" + e.name;
    TwinParts(e.name);
    assert name[|name| - 1] == e.name[|e.name| - 1];
    assert forall k :: 2 <= k < |name| ==> name[k] == e.name[k - 2];
    assert |name| == |e.name| + 2;
  }

  lemma TwinParts(name: string)
    ensures PosixParts("./" + name) == PosixParts(name) && Split("./" + name)[0] == "."
  {
    SplitConcat(".", name);
    SplitOne(".");
    assert "." + "/" + name == "./" + name;
    assert (["."] + Split(name))[1..] == Split(name);
  }

  ghost predicate DistinctPlaces(es: seq<ZipEntry>) {
    forall i, j :: 0 <= i < j < |es| ==> PosixParts(es[i].name) != PosixParts(es[j].name)
  }

  /** With canonical names the checks mean what they seem to: no place is named twice, and below the
      document directory lie the required documents only. */
  lemma CanonicalNamesAreSound(es: seq<ZipEntry>, content: Content)
    requires EntriesHold(es) && Contains(content, es) && OnlyDocNames(content)
    requires forall k :: 0 <= k < |es| ==> Canonical(es[k].name)
    ensures DistinctPlaces(es)
    ensures forall k :: 0 <= k < |es| && |PosixParts(es[k].name)| > 1 && PosixParts(es[k].name)[0] == "docs" ==> HasDoc(es[k].name)
  {
    FreshNamesAreDistinct(es);
    forall k | 0 <= k < |es| && |PosixParts(es[k].name)| > 1 && PosixParts(es[k].name)[0] == "docs"
      ensures HasDoc(es[k].name)
    {
      var p := PosixParts(es[k].name);
      JoinConcat(["docs"], p[1..]);
      assert p == ["docs"] + p[1..];
      assert es[k].name in content;
    }
  }

  // ---------------------------------------------------------------- a passing package gives a passing archive

  lemma {:induction false} PathsAreOk(t: Tree, p: Path, k: nat)
    requires Proper(t) && At(t, p).Some? && k < |p|
    ensures ValidName(p[k])
    decreases |p|
  {
    var i :| 0 <= i < |t.entries| && t.entries[i].name == p[0] && t.entries[i].node == Get(t.entries, p[0]).value;
    if k > 0 {
      PathsAreOk(t.entries[i].node, p[1..], k - 1);
    }
  }

  /** A regular file cannot lie where a required document needs a directory, although the list of
      allowed resources names those places too. */
  lemma NoFileAboveDocument(t: Tree, p: Path)
    requires DocsHold(t, DOCS) && At(t, p).Some? && At(t, p).value.File? && Allowed(p)
    ensures InDocs(DOCS, p)
  {
    var k :| 0 <= k < |DOCS| && p <= PathOf(DOCS[k]);
    assert DocHolds(t, DOCS[k]);
    var q := PathOf(DOCS[k]);
    assert q[..|p|] == p;
    if |p| < |q| {
      ParentsAreDirs(t, q, |p|);
    }
  }

  /** The listed files of a sound package. */
  ghost predicate ListedFiles(t: Tree, items: seq<Item>) {
    Proper(t) && t.Dir? && ListsAll(t, items) && Rooted(items)
  }

  lemma FilesAreListed(t: Tree)
    requires Proper(t) && t.Dir?
    ensures ListedFiles(t, RegularFiles(t))
  {
    RegularFilesExactly(t);
    var items := RegularFiles(t);
    forall k | 0 <= k < |items| ensures items[k].path != [] {
      assert At(t, items[k].path) == Some(File(items[k].data));
    }
  }

  lemma FilePathOk(t: Tree, items: seq<Item>, k: nat)
    requires ListedFiles(t, items) && k < |items|
    ensures PathOk(items[k].path)
  {
    var p := items[k].path;
    forall j | 0 <= j < |p| ensures ValidName(p[j]) {
      PathsAreOk(t, p, j);
    }
  }

  lemma ZippedEntryHolds(t: Tree, items: seq<Item>, version: Option<string>, parse: Parser, k: nat)
    requires ListedFiles(t, items) && SafeItems(items) && PackageSound(t, version, parse) && k < |items|
    ensures EntryHolds(Zipped(items)[k])
  {
    FilePathOk(t, items, k);
    CleanFile(t, items[k].path);
    FileEntryHolds(items[k]);
  }

  lemma CleanFile(t: Tree, p: Path)
    requires t.Dir? && Clean(t, []) && Names(t.entries) == PACKAGE_ROOTS
    requires p != [] && At(t, p).Some? && At(t, p).value.File?
    ensures p[0] in PACKAGE_ROOTS && !Forbidden(p) && !SecretLike(Leaf(p))
  {
    NamesAndGet(t.entries, p[0]);
    assert CleanAt(t, [], p) && [] + p == p;
  }

  lemma FileEntryHolds(item: Item)
    requires PathOk(item.path) && SafeName(Join(item.path))
    requires item.path[0] in PACKAGE_ROOTS && !Forbidden(item.path) && !SecretLike(Leaf(item.path))
    ensures EntryHolds(ZipEntry(Join(item.path), Regular, item.data))
  {
    JoinedParts(item.path);
    JoinedEnds(item.path);
    assert ValidName(item.path[|item.path| - 1]);
  }

  lemma ZippedNamesAreDistinct(t: Tree, items: seq<Item>)
    requires ListedFiles(t, items)
    ensures DistinctNames(Zipped(items))
  {
    forall i, j | 0 <= i < j < |items| ensures Zipped(items)[i].name != Zipped(items)[j].name {
      FilePathOk(t, items, i);
      FilePathOk(t, items, j);
      JoinedParts(items[i].path);
      JoinedParts(items[j].path);
    }
  }

  lemma ZippedContents(t: Tree, items: seq<Item>, content: Content)
    requires ListedFiles(t, items) && Contains(content, Zipped(items))
    ensures SameFiles(content, items)
  {
    var es := Zipped(items);
    forall n | n in content ensures exists k :: 0 <= k < |items| && n == Join(items[k].path) {
      var k :| 0 <= k < |es| && es[k].name == n;
    }
    forall k | 0 <= k < |items|
      ensures Join(items[k].path) in content && content[Join(items[k].path)] == items[k].data
    {
      assert es[k].name in content;
    }
  }

  lemma FileIsIncluded(t: Tree, items: seq<Item>, content: Content, p: Path)
    requires ListedFiles(t, items) && SameFiles(content, items) && p != []
    requires At(t, p).Some? && At(t, p).value.File?
    ensures Join(p) in content && content[Join(p)] == At(t, p).value.data
  {
    var k :| 0 <= k < |items| && items[k] == Item(p, At(t, p).value.data);
  }

  /** Every name in the content map is the path of a regular file of the package. */
  lemma NamedFile(t: Tree, items: seq<Item>, content: Content, n: string) returns (p: Path)
    requires ListedFiles(t, items) && SameFiles(content, items) && n in content
    ensures PathOk(p) && n == Join(p) && Split(n) == p
    ensures At(t, p).Some? && At(t, p).value.File?
  {
    var k :| 0 <= k < |items| && n == Join(items[k].path);
    p := items[k].path;
    FilePathOk(t, items, k);
    JoinedParts(p);
  }

  lemma AtBelow(t: Tree, p: Path)
    requires p != [] && At(t, p).Some?
    ensures At(t, [p[0]]).Some? && At(t, p) == At(At(t, [p[0]]).value, p[1..])
    ensures |p| > 1 ==> At(t, [p[0]]).value.Dir?
  {
    assert At(t, [p[0]]) == At(Get(t.entries, p[0]).value, []);
  }

  lemma StartsWithDocs(n: string)
    requires "docs/" <= n
    ensures |Split(n)| > 1 && Split(n)[0] == "docs"
  {
    SplitOne("docs");
    StartsWithIsPrefix(n, "docs");
    assert Separated("docs") == "docs/";
  }

  lemma FileAmongDocs(t: Tree, p: Path)
    requires t.Dir? && OnlyDocs(t) && DocsHold(t, DOCS)
    requires |p| > 1 && p[0] == "docs" && At(t, p).Some? && At(t, p).value.File?
    ensures InDocs(DOCS, p)
  {
    var docs := At(t, ["docs"]);
    AtBelow(t, p);
    assert SilentAt(docs.value, ["docs"], DocumentIssues, p[1..]);
    assert ["docs"] + p[1..] == p;
    NoFileAboveDocument(t, p);
  }

  lemma DocumentsOnly(t: Tree, items: seq<Item>, content: Content, n: string)
    requires ListedFiles(t, items) && SameFiles(content, items) && OnlyDocs(t) && DocsHold(t, DOCS)
    requires n in content && "docs/" <= n
    ensures HasDoc(n)
  {
    var p := NamedFile(t, items, content, n);
    StartsWithDocs(n);
    FileAmongDocs(t, p);
  }

  lemma PackageContentHolds(t: Tree, items: seq<Item>, content: Content, version: Option<string>, parse: Parser)
    requires ListedFiles(t, items) && SameFiles(content, items) && PackageSound(t, version, parse)
    ensures ContentHolds(content, version, parse)
  {
    FileIsIncluded(t, items, content, ["plugin.json"]);
    forall k | 0 <= k < |DOCS| ensures Join(PathOf(DOCS[k])) in content {
      assert DocHolds(t, DOCS[k]);
      FileIsIncluded(t, items, content, PathOf(DOCS[k]));
    }
    forall n | n in content && "docs/" <= n ensures HasDoc(n) {
      DocumentsOnly(t, items, content, n);
    }
    NoMcp(t, items, content);
  }

  lemma NoMcp(t: Tree, items: seq<Item>, content: Content)
    requires ListedFiles(t, items) && SameFiles(content, items) && Names(t.entries) == PACKAGE_ROOTS
    ensures "mcp.json" !in content
  {
    if "mcp.json" in content {
      var p := NamedFile(t, items, content, "mcp.json");
      McpIsOnePart();
      NamesAndGet(t.entries, p[0]);
    }
  }

  lemma McpIsOnePart()
    ensures Split("mcp.json") == ["mcp.json"]
    ensures "mcp.json" !in PACKAGE_ROOTS
  {
    SplitOne("mcp.json");
    assert forall s :: s in PACKAGE_ROOTS ==> s[0] != 'm';
  }

  // ---------------------------------------------------------------- the main results

  /** The content map of an archive. */
  function ContentOf(es: seq<ZipEntry>): Content {
    if es == [] then map[] else ContentOf(es[..|es| - 1])[es[|es| - 1].name := es[|es| - 1].data]
  }

  lemma {:induction false} ContentOfContains(es: seq<ZipEntry>)
    requires FreshNames(es)
    ensures Contains(ContentOf(es), es)
  {
    if es != [] {
      var init, last := es[..|es| - 1], es[|es| - 1];
      ContentOfContains(init);
      KnownIsFresh(ContentOf(init), init, last.name);
      ContainsNext(ContentOf(init), init, last);
      assert init + [last] == es;
    }
  }

  lemma {:induction false} ZippedBytes(items: seq<Item>)
    requires Rooted(items)
    ensures Expanded(Listed(Zipped(items))) == Total(items)
  {
    if items != [] {
      var init := items[..|items| - 1];
      ZippedBytes(init);
      assert Listed(Zipped(items))[..|init|] == Listed(Zipped(init));
    }
  }

  /** Whatever passes `validate_package` and has names without a backslash, and whose archive is small
      enough, passes `validate_archive` against that package. */
  lemma {:induction false} PassingPackageGivesPassingArchive(t: Tree, items: seq<Item>, size: nat, version: Option<string>, parse: Parser)
    requires ListedFiles(t, items) && PackageSound(t, version, parse) && Total(items) <= MAX_PACKAGE_BYTES
    requires SafeItems(items) && size <= MAX_PACKAGE_BYTES
    ensures var es := Zipped(items);
            ArchiveHolds(Some(Listed(es)), size, ContentOf(es), Some(items), version, parse)
  {
    var es := Zipped(items);
    forall k | 0 <= k < |es| ensures EntryHolds(es[k]) {
      ZippedEntryHolds(t, items, version, parse, k);
    }
    EachHoldsAll(es);
    ZippedNamesAreDistinct(t, items);
    FreshNamesAreDistinct(es);
    ContentOfContains(es);
    ZippedContents(t, items, ContentOf(es));
    PackageContentHolds(t, items, ContentOf(es), version, parse);
    ZippedBytes(items);
  }

  /** Conversely an archive that validates against a package, whoever made it, holds exactly the
      package's regular files: each of its entries is one of them, and each of them is an entry. */
  lemma PassingArchiveIsThePackage(
      ss: seq<Stored>, size: nat, content: Content, t: Tree, items: seq<Item>, version: Option<string>, parse: Parser)
    requires ListedFiles(t, items) && ArchiveHolds(Some(ss), size, content, Some(items), version, parse)
    ensures PackedAs(Entries(ss), t, items)
  {
    EntriesAreThePackage(Entries(ss), content, t, items);
  }

  /** Each entry is one of the package's regular files, each of these is an entry, and there are no more. */
  ghost predicate PackedAs(es: seq<ZipEntry>, t: Tree, items: seq<Item>)
    requires Rooted(items)
  {
    && (forall e :: e in es ==> exists k :: 0 <= k < |items| && e.name == Join(items[k].path) && e.data == items[k].data)
    && (forall p :: p != [] && At(t, p).Some? && At(t, p).value.File? ==>
          exists k :: 0 <= k < |es| && es[k].name == Join(p) && es[k].data == At(t, p).value.data)
    && |es| == |items|
  }

  lemma EntriesAreThePackage(es: seq<ZipEntry>, content: Content, t: Tree, items: seq<Item>)
    requires ListedFiles(t, items) && EntriesHold(es) && Contains(content, es) && SameFiles(content, items)
    ensures PackedAs(es, t, items)
  {
    forall e | e in es ensures exists k :: 0 <= k < |items| && e.name == Join(items[k].path) && e.data == items[k].data {
      var j :| 0 <= j < |es| && es[j] == e;
      assert es[j].name in content;
      var k :| 0 <= k < |items| && e.name == Join(items[k].path);
    }
    forall p: Path | p != [] && At(t, p).Some? && At(t, p).value.File?
      ensures exists k :: 0 <= k < |es| && es[k].name == Join(p) && es[k].data == At(t, p).value.data
    {
      FileIsIncluded(t, items, content, p);
      var k :| 0 <= k < |es| && es[k].name == Join(p);
    }
    SameNumber(es, content, t, items);
  }

  lemma ZippedIsContained(items: seq<Item>, content: Content)
    requires Rooted(items) && SameFiles(content, items)
    ensures Contains(content, Zipped(items))
  {
    var zipped := Zipped(items);
    forall n | n in content ensures exists k :: 0 <= k < |zipped| && zipped[k].name == n {
      var k :| 0 <= k < |items| && n == Join(items[k].path);
      assert zipped[k].name == n;
    }
  }

  lemma SameNumber(es: seq<ZipEntry>, content: Content, t: Tree, items: seq<Item>)
    requires ListedFiles(t, items) && FreshNames(es) && Contains(content, es) && SameFiles(content, items)
    ensures |es| == |items|
  {
    ZippedNamesAreDistinct(t, items);
    FreshNamesAreDistinct(Zipped(items));
    ZippedIsContained(items, content);
    KeysCount(es, content);
    KeysCount(Zipped(items), content);
  }

  lemma {:induction false} KeysCount(es: seq<ZipEntry>, content: Content)
    requires FreshNames(es) && Contains(content, es)
    ensures |content| == |es|
    decreases |es|
  {
    if es == [] {
      assert content == map[];
    } else {
      var init, last := es[..|es| - 1], es[|es| - 1];
      ContentOfContains(init);
      ContentOfContains(es);
      ContentIsUnique(content, ContentOf(es), es);
      KnownIsFresh(ContentOf(init), init, last.name);
      KeysCount(init, ContentOf(init));
      assert content.Keys == ContentOf(init).Keys + {last.name};
      assert |content| == |content.Keys| && |ContentOf(init)| == |ContentOf(init).Keys|;
    }
  }

  /** The archive of a package, and whether all its names are archive-safe. */
  ghost function ArchiveOf(t: Tree): seq<ZipEntry> {
    if Rooted(RegularFiles(t)) then Zipped(RegularFiles(t)) else []
  }

  ghost predicate Archivable(t: Tree) {
    Rooted(RegularFiles(t)) && SafeItems(RegularFiles(t))
  }

  /** From a passing package to its validated archive. */
  method ArchivePackage(t: Tree, version: Option<string>, parse: Parser, compressedSize: seq<ZipEntry> -> nat)
    returns (passed: bool)
    requires Proper(t) && PackageSound(t, version, parse) && Total(RegularFiles(t)) <= MAX_PACKAGE_BYTES
    ensures passed <==> Archivable(t) && compressedSize(ArchiveOf(t)) <= MAX_PACKAGE_BYTES
  {
    var items := RegularFiles(t);
    FilesAreListed(t);
    var built := BuildArchive(items);
    if built.None? {
      return false;
    }
    var size := compressedSize(built.value);
    var issues, content := ValidateArchive(Some(Listed(built.value)), size, Some(items), version, parse);
    passed := issues == [];
    if size <= MAX_PACKAGE_BYTES {
      PassingPackageGivesPassingArchive(t, items, size, version, parse);
    }
  }

  /** `build_package` with an archive.  From a valid source, and with names that can be written, only three
      things can stop the release: the total size, a name with a backslash, and the size of the archive. */
  method BuildRelease(repo: Tree, version: string, parse: Parser, write: Writer, compressedSize: seq<ZipEntry> -> nat)
    returns (passed: bool, package: Outcome)
    requires Proper(repo)
    requires var m := M.BuildManifest(version); parse(write(m)) == Some(SortKeys(m))
    ensures package.Built? <==> M.VersionOk(version) && SourceHolds(repo) && DocsHold(repo, DOCS)
    ensures package.Built? ==> BuiltFrom(package.package, repo, write(M.BuildManifest(version)))
    ensures passed <==>
              && package.Built? && Total(RegularFiles(package.package)) <= MAX_PACKAGE_BYTES
              && Archivable(package.package) && compressedSize(ArchiveOf(package.package)) <= MAX_PACKAGE_BYTES
  {
    package := BuildPackage(repo, version, parse, write);
    passed := package.Built? && package.issues == [];
    if passed {
      passed := ArchivePackage(package.package, Some(version), parse, compressedSize);
    }
  }
}
