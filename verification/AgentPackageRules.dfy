/** The rules that the package builder and both validators share: names that look like secrets,
    forbidden components, recursive checks of a tree, and the required documents.  A recursive check
    takes its rule as a parameter and finds nothing exactly when the rule is silent at every path below
    the one it starts at. */
module AgentPackageRules {
  import opened Wrappers
  import opened PortablePaths
  import opened AgentPackageTrees

  const SKILLS: seq<string> := [
    "agent-first-planning", "agent-plan-to-workers", "agent-workflow-orchestrator", "audit-agent-plan",
    "audit-plan-implementation", "bug-forensics", "issue-to-spec"]

  /** A required document: its directory and its name without the suffix. */
  datatype Doc = Doc(dir: Path, base: string)

  function PathOf(d: Doc): Path {
    d.dir + [d.base + ".md"]
  }

  const GUIDES: seq<string> := [
    "lifecycle-cookbook", "controlled-technical-english", "code-review-workflows", "bug-forensics-workflows"]
  const REFERENCES: seq<string> := [
    "safe-artifact-authoring", "workflow-continuation", "risk-aware-execution", "cli", "source-of-truth"]

  function DocsIn(dir: Path, bases: seq<string>): (r: seq<Doc>)
    ensures |r| == |bases| && forall k :: 0 <= k < |bases| ==> r[k] == Doc(dir, bases[k])
  {
    seq(|bases|, k requires 0 <= k < |bases| => Doc(dir, bases[k]))
  }

  const DOCS: seq<Doc> :=
    DocsIn(["docs", "guides"], GUIDES + ["review-mesh-workflow"]) + DocsIn(["docs", "reference"], REFERENCES)
    + DocsIn(["docs", "ru", "guides"], GUIDES) + DocsIn(["docs", "ru", "reference"], REFERENCES)

  const MAX_SKILL_COUNT: nat := 32
  const MAX_SKILL_BYTES: nat := 512 * 1024
  const MAX_PACKAGE_BYTES: nat := 4 * 1024 * 1024

  const FORBIDDEN_ROOTS: set<string> := {
    ".agents", ".alk", ".claude", ".codex", ".cursor", ".git", "adapters", "mcp.json", "src", "tasks", "work"}
  const FORBIDDEN_NAMES: set<string> := {".env", ".env.local", "credentials.json", "secrets.json"}
  const SECRET_SUFFIXES: set<string> := {".pem", ".key", ".p12", ".pfx"}
  const PACKAGE_ROOTS: set<string> := {"docs", "plugin.json", "skills"}

  datatype Code =
    | SymlinkRejected | NonRegularRejected | SecretLikeRejected | ForbiddenComponent
    | RequiredInvalid | RequiredTooLarge | ResourceUnexpected
    | SourceMissing | SourceSetMismatch | SkillDirectoryInvalid | SkillFileInvalid | SkillTooLarge
    | PackageRootInvalid | RootMismatch | SkillsRootInvalid | SkillSetMismatch | SkillCountLimit
    | ManifestMissing | ManifestUnreadable | ManifestInvalid | NameMismatch | PackageTooLarge
    | ArchiveTooLarge | ExpandedTooLarge | ArchivePathInvalid | ArchiveRootInvalid | DuplicatePath
    | SymlinkEntry | DirectoryEntry | PortableMcp | ContentMismatch | FileMismatch
    | ArchiveUnreadable

  datatype Issue = Issue(code: Code, path: Path)

  // ---------------------------------------------------------------- names

  /** Lower case, as far as it can produce one of the secret suffixes: besides the Latin capitals only
      the Kelvin sign becomes a plain letter. */
  function Lower(c: char): char {
    if 'A' <= c <= 'Z' then c - 'A' + 'a' else if c == '\U{212A}' then 'k' else c
  }

  function LowerAll(s: string): (r: string)
    ensures |r| == |s| && forall k :: 0 <= k < |s| ==> r[k] == Lower(s[k])
  {
    seq(|s|, k requires 0 <= k < |s| => Lower(s[k]))
  }

  /** The position of the last dot, or the length when there is none. */
  function LastDot(name: string): (i: nat)
    ensures i <= |name| && (i < |name| ==> name[i] == '.') && forall k :: i < k < |name| ==> name[k] != '.'
    ensures i == |name| ==> forall k :: 0 <= k < |name| ==> name[k] != '.'
  {
    if name == "" then 0
    else if name[|name| - 1] == '.' then |name| - 1
    else var i := LastDot(name[..|name| - 1]); if i == |name| - 1 then |name| else i
  }

  /** The suffix of a file name, dot included; a leading or trailing dot starts none. */
  function Suffix(name: string): string {
    var i := LastDot(name);
    if 0 < i < |name| - 1 then name[i..] else ""
  }

  predicate SecretLike(name: string) {
    name in FORBIDDEN_NAMES || LowerAll(Suffix(name)) in SECRET_SUFFIXES
  }

  predicate Forbidden(p: Path) {
    exists k :: 0 <= k < |p| && p[k] in FORBIDDEN_ROOTS
  }

  function Leaf(p: Path): string {
    if p == [] then "" else p[|p| - 1]
  }

  lemma MarkdownIsNotSecret(base: string)
    requires base != ""
    ensures !SecretLike(base + ".md")
  {
    var name := base + ".md";
    assert name[|base|] == '.' && name[|base| + 1] == 'm' && name[|base| + 2] == 'd';
    assert LastDot(name) == |base|;
    assert Suffix(name) == ".md";
    assert LowerAll(Suffix(name))[2] == 'd' && |LowerAll(Suffix(name))| == 3;
    assert name[|name| - 1] == 'd';
    assert forall s :: s in FORBIDDEN_NAMES ==> s[|s| - 1] in {'v', 'l', 'n'};
  }

  // ---------------------------------------------------------------- trees

  type Rule = (Tree, Path) -> seq<Issue>

  /** A recursive check: the rule at every node of the tree. */
  function WalkIn(t: Tree, full: Path, rule: Rule, n: nat): seq<Issue>
    requires t.Dir? && n <= |t.entries|
    decreases t, n
  {
    if n == 0 then [] else
      WalkIn(t, full, rule, n - 1) + Walk(t.entries[n - 1].node, full + [t.entries[n - 1].name], rule)
  }

  function Walk(t: Tree, full: Path, rule: Rule): seq<Issue>
    decreases t, if t.Dir? then |t.entries| + 1 else 0
  {
    rule(t, full) + if t.Dir? then WalkIn(t, full, rule, |t.entries|) else []
  }

  /** What `_validate_tree` says about one node. */
  function NodeIssues(t: Tree, full: Path): seq<Issue> {
    match t
    case Link => [Issue(SymlinkRejected, full)]
    case Dir(_) => []
    case _ =>
      (if t.Other? then [Issue(NonRegularRejected, full)] else [])
      + (if SecretLike(Leaf(full)) then [Issue(SecretLikeRejected, full)] else [])
      + (if Forbidden(full) then [Issue(ForbiddenComponent, full)] else [])
  }

  /** `_validate_tree`. */
  function ValidateTree(t: Tree, full: Path): seq<Issue> {
    Walk(t, full, NodeIssues)
  }

  /** Nothing but directories and unsuspicious regular files. */
  ghost predicate Clean(t: Tree, full: Path) {
    forall p :: CleanAt(t, full, p)
  }

  predicate CleanAt(t: Tree, full: Path, p: Path) {
    At(t, p).Some? ==> NodeClean(At(t, p).value, full + p)
  }

  predicate NodeClean(t: Tree, full: Path) {
    t.Dir? || (t.File? && !SecretLike(Leaf(full)) && !Forbidden(full))
  }

  predicate SilentAt(t: Tree, full: Path, rule: Rule, p: Path) {
    At(t, p).Some? ==> rule(At(t, p).value, full + p) == []
  }

  ghost predicate Silent(t: Tree, full: Path, rule: Rule) {
    forall p :: SilentAt(t, full, rule, p)
  }

  lemma SilentAtEntry(t: Tree, full: Path, rule: Rule, k: nat, p: Path)
    requires Proper(t) && t.Dir? && k < |t.entries|
    ensures SilentAt(t, full, rule, [t.entries[k].name] + p)
            <==> SilentAt(t.entries[k].node, full + [t.entries[k].name], rule, p)
  {
    AtEntry(t, k, p);
    assert full + [t.entries[k].name] + p == full + ([t.entries[k].name] + p);
  }

  lemma SilentHere(t: Tree, full: Path, rule: Rule)
    ensures SilentAt(t, full, rule, []) <==> rule(t, full) == []
  {
    assert full + [] == full;
  }

  lemma SilentBelow(t: Tree, full: Path, rule: Rule, k: nat)
    requires Proper(t) && t.Dir? && k < |t.entries| && Silent(t, full, rule)
    ensures Silent(t.entries[k].node, full + [t.entries[k].name], rule)
  {
    forall p ensures SilentAt(t.entries[k].node, full + [t.entries[k].name], rule, p) {
      SilentAtEntry(t, full, rule, k, p);
    }
  }

  /** The first `n` entries are silent. */
  ghost predicate SilentIn(t: Tree, full: Path, rule: Rule, n: nat)
    requires t.Dir? && n <= |t.entries|
  {
    n == 0 || (SilentIn(t, full, rule, n - 1) && SilentEntry(t, full, rule, n - 1))
  }

  ghost predicate SilentEntry(t: Tree, full: Path, rule: Rule, k: nat)
    requires t.Dir? && k < |t.entries|
  {
    Silent(t.entries[k].node, full + [t.entries[k].name], rule)
  }

  lemma {:induction false} SilentInAll(t: Tree, full: Path, rule: Rule, n: nat)
    requires t.Dir? && n <= |t.entries|
    ensures SilentIn(t, full, rule, n) <==> forall k :: 0 <= k < n ==> SilentEntry(t, full, rule, k)
  {
    if n > 0 {
      SilentInAll(t, full, rule, n - 1);
    }
  }

  lemma SilentThrough(t: Tree, full: Path, rule: Rule, p: Path)
    requires Proper(t) && t.Dir? && p != [] && SilentIn(t, full, rule, |t.entries|)
    ensures SilentAt(t, full, rule, p)
  {
    if Get(t.entries, p[0]).Some? {
      var k :| 0 <= k < |t.entries| && t.entries[k].name == p[0];
      SilentInAll(t, full, rule, |t.entries|);
      assert SilentEntry(t, full, rule, k);
      SilentAtEntry(t, full, rule, k, p[1..]);
      assert p == [p[0]] + p[1..];
    }
  }

  lemma SilentAbove(t: Tree, full: Path, rule: Rule)
    requires Proper(t) && t.Dir? && rule(t, full) == [] && SilentIn(t, full, rule, |t.entries|)
    ensures Silent(t, full, rule)
  {
    SilentHere(t, full, rule);
    forall p ensures SilentAt(t, full, rule, p) {
      if p != [] {
        SilentThrough(t, full, rule, p);
      }
    }
  }

  lemma SilentEntries(t: Tree, full: Path, rule: Rule)
    requires Proper(t) && t.Dir?
    ensures Silent(t, full, rule) <==> rule(t, full) == [] && SilentIn(t, full, rule, |t.entries|)
  {
    if Silent(t, full, rule) {
      assert SilentAt(t, full, rule, []);
      SilentHere(t, full, rule);
      forall k | 0 <= k < |t.entries| ensures SilentEntry(t, full, rule, k) {
        SilentBelow(t, full, rule, k);
      }
      SilentInAll(t, full, rule, |t.entries|);
    }
    if rule(t, full) == [] && SilentIn(t, full, rule, |t.entries|) {
      SilentAbove(t, full, rule);
    }
  }

  lemma BothEmpty<T>(a: seq<T>, b: seq<T>)
    ensures a + b == [] <==> a == [] && b == []
  {
    assert |a + b| == |a| + |b|;
  }

  lemma WalkInNext(t: Tree, full: Path, rule: Rule, n: nat)
    requires t.Dir? && 0 < n <= |t.entries|
    ensures |WalkIn(t, full, rule, n)|
            == |WalkIn(t, full, rule, n - 1)| + |Walk(t.entries[n - 1].node, full + [t.entries[n - 1].name], rule)|
  {
  }

  lemma {:induction false} WalkInExactly(t: Tree, full: Path, rule: Rule, n: nat)
    requires Proper(t) && t.Dir? && n <= |t.entries|
    ensures |WalkIn(t, full, rule, n)| == 0 <==> SilentIn(t, full, rule, n)
    decreases t, n
  {
    if n > 0 {
      WalkInExactly(t, full, rule, n - 1);
      WalkEntryExactly(t, full, rule, n - 1);
      WalkInNext(t, full, rule, n);
    }
  }

  lemma {:induction false} WalkEntryExactly(t: Tree, full: Path, rule: Rule, k: nat)
    requires Proper(t) && t.Dir? && k < |t.entries|
    ensures |Walk(t.entries[k].node, full + [t.entries[k].name], rule)| == 0 <==> SilentEntry(t, full, rule, k)
    decreases t, k
  {
    WalkExactly(t.entries[k].node, full + [t.entries[k].name], rule);
  }

  /** A recursive check reports nothing exactly when the rule is silent at every path. */
  lemma {:induction false} WalkExactly(t: Tree, full: Path, rule: Rule)
    requires Proper(t)
    ensures Walk(t, full, rule) == [] <==> Silent(t, full, rule)
    decreases t, if t.Dir? then |t.entries| + 1 else 0
  {
    if t.Dir? {
      WalkInExactly(t, full, rule, |t.entries|);
      SilentEntries(t, full, rule);
      BothEmpty(rule(t, full), WalkIn(t, full, rule, |t.entries|));
    } else {
      SilentHere(t, full, rule);
      if rule(t, full) == [] {
        forall p ensures SilentAt(t, full, rule, p) {
        }
      } else {
        assert !SilentAt(t, full, rule, []);
      }
    }
  }

  lemma NodeExactly(t: Tree, full: Path)
    ensures NodeIssues(t, full) == [] <==> NodeClean(t, full)
  {
  }

  lemma ValidateTreeExactly(t: Tree, full: Path)
    requires Proper(t)
    ensures ValidateTree(t, full) == [] <==> Clean(t, full)
  {
    WalkExactly(t, full, NodeIssues);
    forall p ensures SilentAt(t, full, NodeIssues, p) <==> CleanAt(t, full, p) {
      if At(t, p).Some? {
        NodeExactly(At(t, p).value, full + p);
      }
    }
    assert Clean(t, full) ==> Silent(t, full, NodeIssues);
    assert Silent(t, full, NodeIssues) ==> Clean(t, full);
  }

  /** No issue is about the total size. */
  ghost predicate NotSize(issues: seq<Issue>) {
    forall k :: 0 <= k < |issues| ==> issues[k].code != PackageTooLarge
  }

  ghost predicate RuleNotSize(rule: Rule) {
    forall t, p :: NotSize(rule(t, p))
  }

  lemma {:induction false} WalkInNotSize(t: Tree, full: Path, rule: Rule, n: nat)
    requires t.Dir? && n <= |t.entries| && RuleNotSize(rule)
    ensures NotSize(WalkIn(t, full, rule, n))
    decreases t, n
  {
    if n > 0 {
      WalkInNotSize(t, full, rule, n - 1);
      WalkNotSize(t.entries[n - 1].node, full + [t.entries[n - 1].name], rule);
    }
  }

  lemma {:induction false} WalkNotSize(t: Tree, full: Path, rule: Rule)
    requires RuleNotSize(rule)
    ensures NotSize(Walk(t, full, rule))
    decreases t, if t.Dir? then |t.entries| + 1 else 0
  {
    if t.Dir? {
      WalkInNotSize(t, full, rule, |t.entries|);
    }
  }

  // ---------------------------------------------------------------- required documents

  ghost predicate DocHolds(t: Tree, d: Doc) {
    var there := At(t, PathOf(d));
    there.Some? && there.value.File? && |there.value.data| <= MAX_PACKAGE_BYTES
  }

  lemma {:induction false} ParentsAreDirs(t: Tree, p: Path, k: nat)
    requires k < |p| && At(t, p).Some?
    ensures At(t, p[..k]).Some? && At(t, p[..k]).value.Dir?
    decreases |p|
  {
    if k > 0 {
      ParentsAreDirs(Get(t.entries, p[0]).value, p[1..], k - 1);
      assert p[..k][1..] == p[1..][..k - 1];
    }
  }

  /** Whether every directory above the path is a directory. */
  method ParentsHold(t: Tree, p: Path) returns (ok: bool)
    requires p != []
    ensures ok <==> forall j :: 1 <= j < |p| ==> At(t, p[..j]).Some? && At(t, p[..j]).value.Dir?
  {
    for m := 1 to |p|
      invariant forall j :: 1 <= j < m ==> At(t, p[..j]).Some? && At(t, p[..j]).value.Dir?
    {
      if At(t, p[..m]).None? || !At(t, p[..m]).value.Dir? {
        return false;
      }
    }
    ok := true;
  }

  /** The issue about one required document, if there is one. */
  method CheckDocument(t: Tree, d: Doc) returns (issues: seq<Issue>)
    ensures issues == [] <==> DocHolds(t, d)
    ensures NotSize(issues)
  {
    var p := PathOf(d);
    var parents := ParentsHold(t, p);
    var there := At(t, p);
    if there.Some? {
      forall j | 1 <= j < |p| ensures At(t, p[..j]).Some? && At(t, p[..j]).value.Dir? {
        ParentsAreDirs(t, p, j);
      }
    }
    if !parents || there.None? || !there.value.File? {
      issues := [Issue(RequiredInvalid, p)];
    } else if |there.value.data| > MAX_PACKAGE_BYTES {
      issues := [Issue(RequiredTooLarge, p)];
    } else {
      issues := [];
    }
  }

  ghost predicate DocsHold(t: Tree, docs: seq<Doc>) {
    forall k :: 0 <= k < |docs| ==> DocHolds(t, docs[k])
  }

  lemma DocsHoldNext(t: Tree, docs: seq<Doc>, k: nat)
    requires k < |docs|
    ensures DocsHold(t, docs[..k + 1]) <==> DocsHold(t, docs[..k]) && DocHolds(t, docs[k])
  {
    assert docs[..k + 1] == docs[..k] + [docs[k]];
  }

  /** `validate_required_documents`, for any list of documents. */
  method RequiredDocuments(t: Tree, docs: seq<Doc>) returns (issues: seq<Issue>)
    ensures issues == [] <==> DocsHold(t, docs)
    ensures NotSize(issues)
  {
    issues := [];
    for k := 0 to |docs|
      invariant issues == [] <==> DocsHold(t, docs[..k])
      invariant NotSize(issues)
    {
      var more := CheckDocument(t, docs[k]);
      DocsHoldNext(t, docs, k);
      BothEmpty(issues, more);
      issues := issues + more;
    }
    assert docs[..|docs|] == docs;
  }

  /** A required document or one of the directories above it. */
  predicate Allowed(p: Path) {
    exists k :: 0 <= k < |DOCS| && p <= PathOf(DOCS[k])
  }

  /** What may lie among the documents. */
  function DocumentIssues(t: Tree, full: Path): seq<Issue> {
    if Allowed(full) then [] else [Issue(ResourceUnexpected, full)]
  }

  const DOC_DIRS: set<string> := {"docs", "guides", "reference", "ru"}

  predicate BaseOk(s: string) {
    s != "" && SlashFree(s)
  }

  lemma BasesAreOk()
    ensures forall k :: 0 <= k < |GUIDES| ==> BaseOk(GUIDES[k])
    ensures forall k :: 0 <= k < |REFERENCES| ==> BaseOk(REFERENCES[k])
    ensures BaseOk("review-mesh-workflow")
  {
    assert BaseOk("lifecycle-cookbook") && BaseOk("controlled-technical-english");
    assert BaseOk("code-review-workflows") && BaseOk("bug-forensics-workflows");
    assert BaseOk("safe-artifact-authoring") && BaseOk("workflow-continuation");
    assert BaseOk("risk-aware-execution") && BaseOk("cli") && BaseOk("source-of-truth");
  }

  lemma DocShape(k: nat)
    requires k < |DOCS|
    ensures BaseOk(DOCS[k].base)
    ensures |DOCS[k].dir| >= 2 && DOCS[k].dir[0] == "docs"
    ensures forall j :: 0 <= j < |DOCS[k].dir| ==> DOCS[k].dir[j] in DOC_DIRS
  {
    BasesAreOk();
  }

  /** No required document lies above another one. */
  lemma DocsArePrefixFree(j: nat, k: nat)
    requires j < |DOCS| && k < |DOCS| && PathOf(DOCS[j]) <= PathOf(DOCS[k])
    ensures PathOf(DOCS[j]) == PathOf(DOCS[k])
  {
    DocShape(j);
    DocShape(k);
    var p, q := PathOf(DOCS[j]), PathOf(DOCS[k]);
    var name := p[|p| - 1];
    assert name[|name| - 1] == 'd' && name[|name| - 3] == '.';
    assert forall s :: s in DOC_DIRS ==> |s| < 3 || s[|s| - 3] != '.';
  }
}
