/** Building a package from a repository tree, and validating a package tree. */
module AgentPackages {
  import opened Wrappers
  import opened PortablePaths
  import opened AgentPackageTrees
  import opened AgentPackageRules
  import J = JsonWalk
  import M = AgentPackageManifests

  /** The JSON reader and writer of the host. */
  type Parser = Bytes -> Option<J.Json>
  type Writer = J.Json -> Bytes

  function Names(es: seq<Entry>): (r: set<string>) {
    set k | 0 <= k < |es| :: es[k].name
  }

  function SkillSet(): (r: set<string>) {
    set k | 0 <= k < |SKILLS| :: SKILLS[k]
  }

  lemma NamesAndGet(es: seq<Entry>, name: string)
    ensures name in Names(es) <==> Get(es, name).Some?
  {
  }

  // ---------------------------------------------------------------- skills

  /** A skill is a directory with a regular skill file of bounded size. */
  predicate SkillHolds(node: Tree) {
    && node.Dir?
    && var file := At(node, ["SKILL.md"]);
       file.Some? && file.value.File? && |file.value.data| <= MAX_SKILL_BYTES
  }

  function SkillIssues(node: Tree, shown: Path): (issues: seq<Issue>)
    ensures issues == [] <==> SkillHolds(node)
    ensures NotSize(issues)
  {
    if !node.Dir? then [Issue(SkillDirectoryInvalid, shown)]
    else
      var file := At(node, ["SKILL.md"]);
      if file.None? || !file.value.File? then [Issue(SkillFileInvalid, shown + ["SKILL.md"])]
      else if |file.value.data| > MAX_SKILL_BYTES then [Issue(SkillTooLarge, shown + ["SKILL.md"])]
      else []
  }

  ghost predicate SkillsHoldIn(es: seq<Entry>, n: nat)
    requires n <= |es|
  {
    forall k :: 0 <= k < n ==> SkillHolds(es[k].node)
  }

  ghost predicate SourceSkill(e: Entry) {
    e.name in SkillSet() ==> SkillHolds(e.node) && Clean(e.node, [e.name])
  }

  /** `validate_skill_source` finds nothing. */
  ghost predicate SourceHolds(repo: Tree) {
    var skills := At(repo, ["skills"]);
    && skills.Some? && skills.value.Dir?
    && Names(skills.value.entries) == SkillSet()
    && forall k :: 0 <= k < |skills.value.entries| ==> SourceSkill(skills.value.entries[k])
  }

  /** The issues about one entry of the skill source. */
  method CheckSourceSkill(e: Entry) returns (issues: seq<Issue>)
    requires Proper(e.node)
    ensures issues == [] <==> SourceSkill(e)
  {
    if e.name !in SkillSet() {
      return [];
    }
    if !e.node.Dir? {
      return [Issue(SkillDirectoryInvalid, [e.name])];
    }
    issues := ValidateTree(e.node, [e.name]);
    ValidateTreeExactly(e.node, [e.name]);
    BothEmpty(issues, SkillIssues(e.node, [e.name]));
    issues := issues + SkillIssues(e.node, [e.name]);
  }

  lemma {:induction false} SubtreeIsProper(t: Tree, p: Path)
    requires Proper(t) && At(t, p).Some?
    ensures Proper(At(t, p).value)
    decreases |p|
  {
    if p != [] {
      SubtreeIsProper(Get(t.entries, p[0]).value, p[1..]);
    }
  }

  /** `validate_skill_source`. */
  method ValidateSkillSource(repo: Tree) returns (issues: seq<Issue>)
    requires Proper(repo)
    ensures issues == [] <==> SourceHolds(repo)
  {
    var skills := At(repo, ["skills"]);
    if skills.None? || !skills.value.Dir? {
      return [Issue(SourceMissing, ["skills"])];
    }
    SubtreeIsProper(repo, ["skills"]);
    var es := skills.value.entries;
    issues := if Names(es) != SkillSet() then [Issue(SourceSetMismatch, ["skills"])] else [];
    for k := 0 to |es|
      invariant issues == [] <==> Names(es) == SkillSet() && forall j :: 0 <= j < k ==> SourceSkill(es[j])
    {
      var more := CheckSourceSkill(es[k]);
      BothEmpty(issues, more);
      issues := issues + more;
    }
  }

  // ---------------------------------------------------------------- validating a package

  ghost predicate SkillsHold(t: Tree) {
    var skills := At(t, ["skills"]);
    && skills.Some? && skills.value.Dir?
    && Names(skills.value.entries) == SkillSet()
    && SkillsHoldIn(skills.value.entries, |skills.value.entries|)
  }

  predicate ManifestHolds(t: Tree, version: Option<string>, parse: Parser) {
    var file := At(t, ["plugin.json"]);
    && file.Some? && file.value.File?
    && var m := parse(file.value.data);
       m.Some? && m.value.Obj? && M.Accepted(m.value, version)
       && J.Get(m.value.fields, "name") == Some(J.Str(M.PLUGIN_NAME))
  }

  /** Nothing but the required documents and the directories above them lies below `docs`. */
  ghost predicate OnlyDocs(t: Tree) {
    var docs := At(t, ["docs"]);
    docs.Some? && docs.value.Dir? ==> Silent(docs.value, ["docs"], DocumentIssues)
  }

  /** Everything `validate_package` asks of a package except its total size. */
  ghost predicate PackageSound(t: Tree, version: Option<string>, parse: Parser) {
    && t.Dir?
    && Clean(t, [])
    && Names(t.entries) == PACKAGE_ROOTS
    && DocsHold(t, DOCS)
    && OnlyDocs(t)
    && ManifestHolds(t, version, parse)
    && SkillsHold(t)
  }

  function Total(items: seq<Item>): nat {
    if items == [] then 0 else Total(items[..|items| - 1]) + |items[|items| - 1].data|
  }

  method CheckManifest(t: Tree, version: Option<string>, parse: Parser) returns (issues: seq<Issue>)
    ensures issues == [] <==> ManifestHolds(t, version, parse)
    ensures NotSize(issues)
  {
    var path := ["plugin.json"];
    var file := At(t, path);
    if file.None? || !file.value.File? {
      return [Issue(ManifestMissing, path)];
    }
    var m := parse(file.value.data);
    if m.None? || !m.value.Obj? {
      return [Issue(ManifestUnreadable, path)];
    }
    issues := if !M.Accepted(m.value, version) then [Issue(ManifestInvalid, path)] else [];
    if J.Get(m.value.fields, "name") != Some(J.Str(M.PLUGIN_NAME)) {
      issues := issues + [Issue(NameMismatch, path)];
    }
  }

  lemma SkillCount(es: seq<Entry>)
    requires UniqueNames(es) && Names(es) == SkillSet()
    ensures |es| <= MAX_SKILL_COUNT
  {
    UniqueCount(es);
    assert forall x :: x in SkillSet() ==> x in {SKILLS[0], SKILLS[1], SKILLS[2], SKILLS[3], SKILLS[4], SKILLS[5], SKILLS[6]};
    SubsetCount(SkillSet(), {SKILLS[0], SKILLS[1], SKILLS[2], SKILLS[3], SKILLS[4], SKILLS[5], SKILLS[6]});
  }

  lemma {:induction false} SubsetCount<T>(a: set<T>, b: set<T>)
    requires a <= b
    ensures |a| <= |b|
  {
    if a != {} {
      var x :| x in a;
      SubsetCount(a - {x}, b - {x});
    }
  }

  lemma NamesOfInit(es: seq<Entry>)
    requires es != []
    ensures Names(es) == Names(es[..|es| - 1]) + {es[|es| - 1].name}
  {
    var init, last := es[..|es| - 1], es[|es| - 1];
    forall x | x in Names(es) ensures x in Names(init) + {last.name} {
      var k :| 0 <= k < |es| && es[k].name == x;
      assert k < |init| ==> init[k] == es[k];
    }
    forall x | x in Names(init) ensures x in Names(es) {
      var k :| 0 <= k < |init| && init[k].name == x;
      assert es[k] == init[k];
    }
  }

  lemma {:induction false} UniqueCount(es: seq<Entry>)
    requires UniqueNames(es)
    ensures |Names(es)| == |es|
  {
    if es != [] {
      var init, last := es[..|es| - 1], es[|es| - 1];
      UniqueCount(init);
      NamesOfInit(es);
      assert last.name !in Names(init);
    }
  }

  method CheckSkillEntries(es: seq<Entry>) returns (issues: seq<Issue>)
    ensures issues == [] <==> SkillsHoldIn(es, |es|)
    ensures NotSize(issues)
  {
    issues := [];
    for k := 0 to |es|
      invariant issues == [] <==> SkillsHoldIn(es, k)
      invariant NotSize(issues)
    {
      var more := SkillIssues(es[k].node, ["skills", es[k].name]);
      Joined(issues, more);
      issues := issues + more;
    }
  }

  method CheckSkills(t: Tree) returns (issues: seq<Issue>)
    requires Proper(t)
    ensures issues == [] <==> SkillsHold(t)
    ensures NotSize(issues)
  {
    var skills := At(t, ["skills"]);
    if skills.None? || !skills.value.Dir? {
      return [Issue(SkillsRootInvalid, ["skills"])];
    }
    SubtreeIsProper(t, ["skills"]);
    var es := skills.value.entries;
    issues := if Names(es) != SkillSet() then [Issue(SkillSetMismatch, ["skills"])] else [];
    if |es| > MAX_SKILL_COUNT {
      issues := issues + [Issue(SkillCountLimit, ["skills"])];
    }
    if Names(es) == SkillSet() {
      SkillCount(es);
    }
    var more := CheckSkillEntries(es);
    Joined(issues, more);
    issues := issues + more;
  }

  lemma RulesAreNotAboutSize()
    ensures RuleNotSize(NodeIssues) && RuleNotSize(DocumentIssues)
  {
    assert forall t, p :: NotSize(NodeIssues(t, p));
    assert forall t, p :: NotSize(DocumentIssues(t, p));
  }

  method CheckForeign(t: Tree) returns (issues: seq<Issue>)
    requires Proper(t)
    ensures issues == [] <==> OnlyDocs(t)
    ensures NotSize(issues)
  {
    var docs := At(t, ["docs"]);
    if docs.None? || !docs.value.Dir? {
      return [];
    }
    RulesAreNotAboutSize();
    SubtreeIsProper(t, ["docs"]);
    WalkExactly(docs.value, ["docs"], DocumentIssues);
    WalkNotSize(docs.value, ["docs"], DocumentIssues);
    issues := Walk(docs.value, ["docs"], DocumentIssues);
  }

  method CheckTree(t: Tree) returns (issues: seq<Issue>)
    requires Proper(t) && t.Dir?
    ensures issues == [] <==> Clean(t, []) && Names(t.entries) == PACKAGE_ROOTS
    ensures NotSize(issues)
  {
    RulesAreNotAboutSize();
    issues := ValidateTree(t, []);
    ValidateTreeExactly(t, []);
    WalkNotSize(t, [], NodeIssues);
    if Names(t.entries) != PACKAGE_ROOTS {
      issues := issues + [Issue(RootMismatch, [])];
    }
  }

  lemma Joined(a: seq<Issue>, b: seq<Issue>)
    requires NotSize(a) && NotSize(b)
    ensures NotSize(a + b)
    ensures a + b == [] <==> a == [] && b == []
  {
    BothEmpty(a, b);
  }

  /** Everything but the size. */
  method CheckContents(t: Tree, version: Option<string>, parse: Parser) returns (issues: seq<Issue>)
    requires Proper(t) && t.Dir?
    ensures issues == [] <==> PackageSound(t, version, parse)
    ensures NotSize(issues)
  {
    issues := CheckTree(t);
    var required := RequiredDocuments(t, DOCS);
    Joined(issues, required);
    issues := issues + required;
    var foreign := CheckForeign(t);
    Joined(issues, foreign);
    issues := issues + foreign;
    var manifest := CheckManifest(t, version, parse);
    Joined(issues, manifest);
    issues := issues + manifest;
    var skills := CheckSkills(t);
    Joined(issues, skills);
    issues := issues + skills;
  }

  method CountBytes(files: seq<Item>) returns (total: nat)
    ensures total == Total(files)
  {
    total := 0;
    for k := 0 to |files|
      invariant total == Total(files[..k])
    {
      assert files[..k + 1][..k] == files[..k];
      total := total + |files[k].data|;
    }
    assert files[..|files|] == files;
  }

  ghost predicate OnlySize(issues: seq<Issue>) {
    forall k :: 0 <= k < |issues| ==> issues[k].code == PackageTooLarge
  }

  lemma SizeComesLast(contents: seq<Issue>, size: seq<Issue>)
    requires NotSize(contents) && OnlySize(size)
    ensures OnlySize(contents + size) <==> contents == []
    ensures contents + size == [] <==> contents == [] && size == []
  {
    BothEmpty(contents, size);
    if contents != [] {
      assert (contents + size)[0] == contents[0];
    }
  }

  /** `validate_package`: its issues are those about the contents and, separately, the total size. */
  method ValidatePackage(t: Tree, version: Option<string>, parse: Parser) returns (issues: seq<Issue>)
    requires Proper(t)
    ensures OnlySize(issues) <==> PackageSound(t, version, parse)
    ensures issues == [] <==> PackageSound(t, version, parse) && Total(RegularFiles(t)) <= MAX_PACKAGE_BYTES
  {
    if !t.Dir? {
      issues := [Issue(PackageRootInvalid, [])];
      assert issues[0].code != PackageTooLarge;
      return;
    }
    var contents := CheckContents(t, version, parse);
    var total := CountBytes(RegularFiles(t));
    var size := if total > MAX_PACKAGE_BYTES then [Issue(PackageTooLarge, [])] else [];
    SizeComesLast(contents, size);
    issues := contents + size;
  }
}
