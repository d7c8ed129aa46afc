/** The package builder.  Its steps are the skills, copied one by one, and the documents, written one by
    one below the manifest; what it leaves at every path is known.  Whatever it builds from a valid
    repository, the validator can only object to its total size. */
module AgentPackageBuild {
  import opened Wrappers
  import opened PortablePaths
  import opened AgentPackageTrees
  import opened AgentPackageRules
  import opened AgentPackages
  import opened JsonOrder
  import M = AgentPackageManifests

  // ---------------------------------------------------------------- skills

  lemma SkillsAreDistinct()
    ensures forall i, j :: 0 <= i < j < |SKILLS| ==> SKILLS[i] != SKILLS[j]
  {
    assert |SKILLS[0]| == 20 && |SKILLS[1]| == 21 && |SKILLS[2]| == 27 && |SKILLS[3]| == 16 && |SKILLS[4]| == 25;
    assert |SKILLS[5]| == 13 && |SKILLS[6]| == 13 && SKILLS[5][0] == 'b' && SKILLS[6][0] == 'i';
  }

  lemma SkillNamesAreOk()
    ensures forall k :: 0 <= k < |SKILLS| ==> ValidName(SKILLS[k])
  {
    assert ValidName(SKILLS[0]) && ValidName(SKILLS[1]) && ValidName(SKILLS[2]);
    assert ValidName(SKILLS[3]) && ValidName(SKILLS[4]) && ValidName(SKILLS[5]);
    assert ValidName(SKILLS[6]);
  }

  /** The copies made so far, in the order of the names. */
  ghost predicate Copied(es: seq<Entry>, names: seq<string>, copies: seq<Entry>) {
    && |copies| <= |names|
    && forall k :: 0 <= k < |copies| ==>
         copies[k].name == names[k] && Get(es, names[k]) == Some(copies[k].node)
  }

  lemma CleanIsPlain(t: Tree, full: Path)
    requires Clean(t, full)
    ensures Plain(t)
  {
    forall p | At(t, p).Some? ensures At(t, p).value.File? || At(t, p).value.Dir? {
      assert CleanAt(t, full, p);
    }
  }

  lemma SourceSkillAt(es: seq<Entry>, name: string)
    requires Proper(Dir(es)) && Names(es) == SkillSet() && name in SkillSet()
    requires forall k :: 0 <= k < |es| ==> SourceSkill(es[k])
    ensures var e := Get(es, name);
            e.Some? && Proper(e.value) && SkillHolds(e.value) && Clean(e.value, [name])
  {
    NamesAndGet(es, name);
    var k :| 0 <= k < |es| && es[k].name == name && es[k].node == Get(es, name).value;
    assert SourceSkill(es[k]);
  }

  lemma SourceSkillCopies(es: seq<Entry>, name: string)
    requires Proper(Dir(es)) && Names(es) == SkillSet() && name in SkillSet()
    requires forall k :: 0 <= k < |es| ==> SourceSkill(es[k])
    ensures Get(es, name).Some? && CopyTreeWithoutLinks(Get(es, name).value) == Get(es, name)
  {
    SourceSkillAt(es, name);
    CleanIsPlain(Get(es, name).value, [name]);
    CopyExactly(Get(es, name).value);
  }

  /** The loop over the skills. */
  method CopySkills(es: seq<Entry>, names: seq<string>) returns (copies: seq<Entry>)
    requires Proper(Dir(es)) && Names(es) == SkillSet() && forall k :: 0 <= k < |names| ==> names[k] in SkillSet()
    requires forall k :: 0 <= k < |es| ==> SourceSkill(es[k])
    ensures |copies| == |names| && Copied(es, names, copies)
  {
    copies := [];
    for k := 0 to |names|
      invariant |copies| == k && Copied(es, names, copies)
    {
      SourceSkillCopies(es, names[k]);
      var node := Get(es, names[k]).value;
      copies := copies + [Entry(names[k], CopyTreeWithoutLinks(node).value)];
    }
  }

  lemma CopiesLookAlike(es: seq<Entry>, copies: seq<Entry>, name: string)
    requires Names(es) == SkillSet() && |copies| == |SKILLS| && Copied(es, SKILLS, copies)
    ensures UniqueNames(copies) && Get(copies, name) == Get(es, name)
  {
    SkillsAreDistinct();
    assert UniqueNames(copies);
    NamesAndGet(es, name);
    if name in SkillSet() {
      var k :| 0 <= k < |SKILLS| && SKILLS[k] == name;
      GetUnique(copies, k);
    }
  }

  lemma CopiesAreSound(es: seq<Entry>, copies: seq<Entry>)
    requires Proper(Dir(es)) && Names(es) == SkillSet() && |copies| == |SKILLS| && Copied(es, SKILLS, copies)
    requires forall k :: 0 <= k < |es| ==> SourceSkill(es[k])
    ensures Proper(Dir(copies)) && Names(copies) == SkillSet() && SkillsHoldIn(copies, |copies|)
    ensures forall q :: q != [] ==> At(Dir(copies), q) == At(Dir(es), q)
  {
    SkillNamesAreOk();
    CopiesLookAlike(es, copies, "");
    forall k | 0 <= k < |copies|
      ensures Proper(copies[k].node) && SkillHolds(copies[k].node)
    {
      assert SKILLS[k] in SkillSet();
      SourceSkillAt(es, SKILLS[k]);
    }
    forall q: Path | q != [] ensures At(Dir(copies), q) == At(Dir(es), q) {
      CopiesLookAlike(es, copies, q[0]);
    }
  }

  // ---------------------------------------------------------------- the tree before the documents

  /** The manifest and the skills, and nothing else. */
  ghost predicate BaseHolds(base: Tree, repo: Tree, data: Bytes) {
    && base.Dir? && Proper(base) && SkillsHold(base)
    && forall q :: q != [] ==> BaseAt(base, repo, data, q)
  }

  ghost predicate BaseAt(base: Tree, repo: Tree, data: Bytes, q: Path)
    requires q != []
  {
    if q[0] == "plugin.json" then At(base, q) == if |q| == 1 then Some(File(data)) else None
    else if q[0] == "skills" then |q| > 1 ==> At(base, q) == At(repo, q)
    else At(base, q) == None
  }

  lemma BaseLookup(base: Tree, data: Bytes, skills: Tree, name: string)
    requires base == Dir([Entry("plugin.json", File(data)), Entry("skills", skills)])
    ensures Get(base.entries, name) ==
            if name == "skills" then Some(skills) else if name == "plugin.json" then Some(File(data)) else None
  {
    var es := base.entries;
    assert es[0].name[0] == 'p' && es[1].name[0] == 's';
    if name == "plugin.json" {
      GetUnique(es, 0);
    } else if name == "skills" {
      GetUnique(es, 1);
    }
  }

  lemma InsideSkills(repo: Tree, q: Path)
    requires At(repo, ["skills"]).Some? && q != [] && q[0] == "skills"
    ensures At(repo, q) == At(At(repo, ["skills"]).value, q[1..])
  {
    assert At(repo, ["skills"]) == At(Get(repo.entries, "skills").value, []);
  }

  lemma BaseIsProper(base: Tree, data: Bytes, copies: seq<Entry>)
    requires base == Dir([Entry("plugin.json", File(data)), Entry("skills", Dir(copies))])
    requires Proper(Dir(copies)) && Names(copies) == SkillSet() && SkillsHoldIn(copies, |copies|)
    ensures Proper(base) && SkillsHold(base)
  {
    assert base.entries[0].name[0] == 'p' && base.entries[1].name[0] == 's';
    BaseLookup(base, data, Dir(copies), "skills");
    assert At(base, ["skills"]) == At(Dir(copies), []);
  }

  lemma {:induction false} BaseIsRight(repo: Tree, copies: seq<Entry>, data: Bytes)
    requires Proper(repo) && SourceHolds(repo)
    requires |copies| == |SKILLS| && Copied(At(repo, ["skills"]).value.entries, SKILLS, copies)
    ensures BaseHolds(Dir([Entry("plugin.json", File(data)), Entry("skills", Dir(copies))]), repo, data)
  {
    var skills := At(repo, ["skills"]).value;
    SubtreeIsProper(repo, ["skills"]);
    CopiesAreSound(skills.entries, copies);
    var base := Dir([Entry("plugin.json", File(data)), Entry("skills", Dir(copies))]);
    BaseIsProper(base, data, copies);
    forall q: Path | q != [] ensures BaseAt(base, repo, data, q) {
      BaseLookup(base, data, Dir(copies), q[0]);
      if q[0] == "skills" {
        InsideSkills(repo, q);
      }
    }
  }

  // ---------------------------------------------------------------- documents

  ghost predicate InDocs(docs: seq<Doc>, q: Path) {
    exists k :: 0 <= k < |docs| && q == PathOf(docs[k])
  }

  ghost predicate AboveDocs(docs: seq<Doc>, q: Path) {
    exists k :: 0 <= k < |docs| && q < PathOf(docs[k])
  }

  /** The base with these documents copied from the repository. */
  ghost predicate DocsWritten(base: Tree, t: Tree, repo: Tree, docs: seq<Doc>) {
    forall q :: DocsWrittenAt(base, t, repo, docs, q)
  }

  ghost predicate DocsWrittenAt(base: Tree, t: Tree, repo: Tree, docs: seq<Doc>, q: Path) {
    if InDocs(docs, q) then At(t, q) == At(repo, q)
    else if AboveDocs(docs, q) then At(t, q).Some? && At(t, q).value.Dir?
    else At(t, q) == At(base, q)
  }

  /** Lists of documents as the builder uses them. */
  ghost predicate DocsFit(docs: seq<Doc>) {
    && (forall k :: 0 <= k < |docs| ==> |PathOf(docs[k])| > 1 && PathOf(docs[k])[0] == "docs")
    && (forall k, m :: 0 <= k < |docs| && 0 <= m < |PathOf(docs[k])| ==> ValidName(PathOf(docs[k])[m]))
    && (forall j, k :: 0 <= j < |docs| && 0 <= k < |docs| && PathOf(docs[j]) <= PathOf(docs[k]) ==>
          PathOf(docs[j]) == PathOf(docs[k]))
  }

  lemma DocsAreFit()
    ensures DocsFit(DOCS)
  {
    forall k | 0 <= k < |DOCS| ensures |PathOf(DOCS[k])| > 1 && PathOf(DOCS[k])[0] == "docs" {
      DocShape(k);
    }
    forall k, m | 0 <= k < |DOCS| && 0 <= m < |PathOf(DOCS[k])| ensures ValidName(PathOf(DOCS[k])[m]) {
      DocPartIsOk(k, m);
    }
    forall j, k | 0 <= j < |DOCS| && 0 <= k < |DOCS| && PathOf(DOCS[j]) <= PathOf(DOCS[k])
      ensures PathOf(DOCS[j]) == PathOf(DOCS[k])
    {
      DocsArePrefixFree(j, k);
    }
  }

  lemma DocPartIsOk(k: nat, m: nat)
    requires k < |DOCS| && m < |PathOf(DOCS[k])|
    ensures ValidName(PathOf(DOCS[k])[m])
  {
    DocShape(k);
    if m < |DOCS[k].dir| {
      assert forall s :: s in DOC_DIRS ==> ValidName(s);
    } else {
      assert |DOCS[k].base + ".md"| > 3;
    }
  }

  lemma DocIsFree(base: Tree, t: Tree, repo: Tree, data: Bytes, docs: seq<Doc>, k: nat)
    requires BaseHolds(base, repo, data) && DocsFit(docs) && k < |docs| && DocsHold(repo, docs)
    requires t.Dir? && DocsWritten(base, t, repo, docs[..k])
    ensures Free(t, PathOf(docs[k]))
  {
    var p := PathOf(docs[k]);
    forall m | 0 <= m < |p| ensures At(t, p[..m]).Some? ==> At(t, p[..m]).value.Dir? {
      var q := p[..m];
      assert DocsWrittenAt(base, t, repo, docs[..k], q);
      assert !InDocs(docs[..k], q);
      assert q != [] ==> BaseAt(base, repo, data, q);
    }
    assert DocsWrittenAt(base, t, repo, docs[..k], p);
    assert !AboveDocs(docs[..k], p);
    assert BaseAt(base, repo, data, p);
    if InDocs(docs[..k], p) {
      assert DocHolds(repo, docs[k]);
    }
  }

  lemma NextDoc(docs: seq<Doc>, k: nat, q: Path)
    requires k < |docs|
    ensures InDocs(docs[..k + 1], q) <==> InDocs(docs[..k], q) || q == PathOf(docs[k])
    ensures AboveDocs(docs[..k + 1], q) <==> AboveDocs(docs[..k], q) || q < PathOf(docs[k])
  {
    var more := docs[..k + 1];
    assert more[k] == docs[k];
    if InDocs(docs[..k], q) {
      var j :| 0 <= j < k && q == PathOf(docs[..k][j]);
      assert more[j] == docs[..k][j];
    }
    if AboveDocs(docs[..k], q) {
      var j :| 0 <= j < k && q < PathOf(docs[..k][j]);
      assert more[j] == docs[..k][j];
    }
    forall j | 0 <= j < k ensures more[j] == docs[..k][j] {
    }
  }

  lemma DocIsWritten(
      base: Tree, t: Tree, u: Tree, repo: Tree, data: Bytes, docs: seq<Doc>, k: nat, q: Path)
    requires BaseHolds(base, repo, data) && DocsFit(docs) && k < |docs| && DocHolds(repo, docs[k])
    requires DocsWritten(base, t, repo, docs[..k])
    requires PutHolds(t, u, PathOf(docs[k]), At(repo, PathOf(docs[k])).value.data)
    ensures DocsWrittenAt(base, u, repo, docs[..k + 1], q)
  {
    var p := PathOf(docs[k]);
    assert DocsWrittenAt(base, t, repo, docs[..k], q);
    NextDoc(docs, k, q);
    if p < q {
      BelowDocsIsNothing(docs, k, q);
      assert BaseAt(base, repo, data, q);
    } else if q < p {
      assert !InDocs(docs[..k], q);
    }
  }

  lemma Longer(a: Path, b: Path, c: Path)
    requires a < b
    ensures b <= c ==> a <= c && a != c
  {
  }

  lemma BelowDocsIsNothing(docs: seq<Doc>, k: nat, q: Path)
    requires DocsFit(docs) && k < |docs| && PathOf(docs[k]) < q
    ensures !InDocs(docs[..k], q) && !AboveDocs(docs[..k], q)
  {
    forall j | 0 <= j < k ensures q != PathOf(docs[..k][j]) && !(q < PathOf(docs[..k][j])) {
      assert docs[..k][j] == docs[j];
      Longer(PathOf(docs[k]), q, PathOf(docs[j]));
    }
  }

  /** The loop over the required documents. */
  method CopyDocuments(base: Tree, repo: Tree, ghost data: Bytes, docs: seq<Doc>) returns (t: Tree)
    requires BaseHolds(base, repo, data) && DocsFit(docs) && DocsHold(repo, docs)
    ensures t.Dir? && Proper(t) && DocsWritten(base, t, repo, docs)
  {
    t := base;
    for k := 0 to |docs|
      invariant t.Dir? && Proper(t) && DocsWritten(base, t, repo, docs[..k])
    {
      DocIsFree(base, t, repo, data, docs, k);
      assert DocHolds(repo, docs[k]);
      var p := PathOf(docs[k]);
      ghost var was := t;
      PutExactly(t, p, At(repo, p).value.data);
      t := Put(t, p, At(repo, p).value.data).value;
      ghost var more := docs[..k + 1];
      forall q ensures DocsWrittenAt(base, t, repo, more, q) {
        DocIsWritten(base, was, t, repo, data, docs, k, q);
      }
    }
    assert docs[..|docs|] == docs;
  }

  // ---------------------------------------------------------------- the built package is sound

  lemma DocPathIsClean(k: nat)
    requires k < |DOCS|
    ensures !SecretLike(Leaf(PathOf(DOCS[k]))) && !Forbidden(PathOf(DOCS[k]))
  {
    DocShape(k);
    MarkdownIsNotSecret(DOCS[k].base);
    DirsAreNotForbidden();
    MarkdownIsNotForbidden(DOCS[k].base);
  }

  lemma DirsAreNotForbidden()
    ensures forall s :: s in DOC_DIRS ==> s !in FORBIDDEN_ROOTS
  {
  }

  lemma MarkdownIsNotForbidden(base: string)
    ensures base + ".md" !in FORBIDDEN_ROOTS
  {
    var name := base + ".md";
    assert name[|name| - 3] == '.' && name[|name| - 1] == 'd';
    assert forall s :: s in FORBIDDEN_ROOTS ==> s[|s| - 3] != '.' || s[|s| - 1] != 'd';
  }

  lemma InsideSkill(repo: Tree, q: Path)
    requires At(repo, ["skills"]).Some? && At(repo, ["skills"]).value.Dir?
    requires |q| > 1 && q[0] == "skills" && At(repo, q).Some?
    ensures var node := Get(At(repo, ["skills"]).value.entries, q[1]);
            node.Some? && At(repo, q) == At(node.value, q[2..])
  {
    assert At(repo, ["skills"]) == At(Get(repo.entries, "skills").value, []);
    assert At(repo, q) == At(At(repo, ["skills"]).value, q[1..]);
    assert q[1..][1..] == q[2..];
  }

  /** A path below `skills` leads into a clean skill. */
  lemma CleanSkillAt(repo: Tree, q: Path) returns (node: Tree)
    requires Proper(repo) && SourceHolds(repo) && |q| > 1 && q[0] == "skills" && At(repo, q).Some?
    ensures Clean(node, [q[1]]) && At(repo, q) == At(node, q[2..])
  {
    var es := At(repo, ["skills"]).value.entries;
    SubtreeIsProper(repo, ["skills"]);
    InsideSkill(repo, q);
    NamesAndGet(es, q[1]);
    SourceSkillAt(es, q[1]);
    node := Get(es, q[1]).value;
  }

  lemma SkillsStayClean(repo: Tree, q: Path)
    requires Proper(repo) && SourceHolds(repo) && |q| > 1 && q[0] == "skills" && At(repo, q).Some?
    ensures NodeClean(At(repo, q).value, q)
  {
    var node := CleanSkillAt(repo, q);
    StaysClean(node, q[1], q[2..]);
    PathBelowSkills(q);
  }

  lemma PathBelowSkills(q: Path)
    requires |q| > 1 && q[0] == "skills"
    ensures q == ["skills"] + ([q[1]] + q[2..])
  {
  }

  lemma StaysClean(node: Tree, name: string, r: Path)
    requires Clean(node, [name]) && At(node, r).Some?
    ensures NodeClean(At(node, r).value, ["skills"] + ([name] + r))
  {
    assert CleanAt(node, [name], r);
    SkillsIsNotForbidden();
    ForbiddenBelow("skills", [name] + r);
  }

  lemma SkillsIsNotForbidden()
    ensures "skills" !in FORBIDDEN_ROOTS
  {
    assert forall s :: s in FORBIDDEN_ROOTS ==> |s| != 6 || s[1] != 'k';
  }

  lemma ForbiddenBelow(top: string, p: Path)
    requires top !in FORBIDDEN_ROOTS && p != []
    ensures Forbidden([top] + p) <==> Forbidden(p)
    ensures Leaf([top] + p) == Leaf(p)
  {
    if Forbidden(p) {
      var k :| 0 <= k < |p| && p[k] in FORBIDDEN_ROOTS;
      assert ([top] + p)[k + 1] == p[k];
    }
  }

  /** What a package is built from. */
  ghost predicate BuiltFrom(t: Tree, repo: Tree, data: Bytes) {
    && t.Dir? && Proper(t)
    && forall q :: q != [] ==> BuiltAt(t, repo, data, q)
  }

  /** The manifest, the skills and the required documents, byte for byte; nothing else. */
  ghost predicate BuiltAt(t: Tree, repo: Tree, data: Bytes, q: Path)
    requires q != []
  {
    if q[0] == "plugin.json" then At(t, q) == if |q| == 1 then Some(File(data)) else None
    else if q[0] == "skills" then |q| > 1 ==> At(t, q) == At(repo, q)
    else if InDocs(DOCS, q) then At(t, q) == At(repo, q)
    else if AboveDocs(DOCS, q) then At(t, q).Some? && At(t, q).value.Dir?
    else At(t, q) == None
  }

  lemma DocumentsGive(base: Tree, t: Tree, repo: Tree, data: Bytes)
    requires BaseHolds(base, repo, data) && t.Dir? && Proper(t) && DocsWritten(base, t, repo, DOCS) && DocsFit(DOCS)
    ensures BuiltFrom(t, repo, data) && At(t, ["skills"]) == At(base, ["skills"])
  {
    forall q: Path | q != [] ensures BuiltAt(t, repo, data, q) {
      assert DocsWrittenAt(base, t, repo, DOCS, q) && BaseAt(base, repo, data, q);
      NotAmongDocs(q);
    }
    assert DocsWrittenAt(base, t, repo, DOCS, ["skills"]);
    NotAmongDocs(["skills"]);
  }

  lemma NotAmongDocs(q: Path)
    requires q != [] && DocsFit(DOCS)
    ensures q[0] != "docs" ==> !InDocs(DOCS, q) && !AboveDocs(DOCS, q)
  {
  }

  lemma BuiltIsClean(t: Tree, repo: Tree, data: Bytes)
    requires BuiltFrom(t, repo, data) && Proper(repo) && SourceHolds(repo) && DocsHold(repo, DOCS)
    requires At(t, ["skills"]).Some? && At(t, ["skills"]).value.Dir?
    ensures Clean(t, [])
  {
    forall q ensures CleanAt(t, [], q) {
      assert [] + q == q;
      if q != [] && At(t, q).Some? {
        BuiltNodeIsClean(t, repo, data, q);
      }
    }
  }

  lemma BuiltNodeIsClean(t: Tree, repo: Tree, data: Bytes, q: Path)
    requires BuiltFrom(t, repo, data) && Proper(repo) && SourceHolds(repo) && DocsHold(repo, DOCS)
    requires At(t, ["skills"]).Some? && At(t, ["skills"]).value.Dir? && q != [] && At(t, q).Some?
    ensures NodeClean(At(t, q).value, q)
  {
    assert BuiltAt(t, repo, data, q);
    if q[0] == "plugin.json" {
      ManifestNameIsClean();
      assert q == ["plugin.json"];
    } else if q[0] == "skills" {
      if |q| > 1 {
        SkillsStayClean(repo, q);
      } else {
        assert q == ["skills"];
      }
    } else if InDocs(DOCS, q) {
      var k :| 0 <= k < |DOCS| && q == PathOf(DOCS[k]);
      DocPathIsClean(k);
      assert DocHolds(repo, DOCS[k]);
    }
  }

  lemma ManifestNameIsClean()
    ensures !SecretLike("plugin.json") && !Forbidden(["plugin.json"])
  {
    ManifestNameIsNotSecret();
    assert forall s :: s in FORBIDDEN_ROOTS ==> s[0] != 'p';
  }

  lemma ManifestNameIsNotSecret()
    ensures !SecretLike("plugin.json")
  {
    var name := "plugin.json";
    assert |name| == 11 && name[6] == '.' && name[0] == 'p';
    assert LastDot(name) == 6;
    assert |Suffix(name)| == 5;
    assert forall s :: s in SECRET_SUFFIXES ==> |s| == 4;
    assert forall s :: s in FORBIDDEN_NAMES ==> s[0] != 'p';
  }

  lemma BuiltRoots(t: Tree, repo: Tree, data: Bytes)
    requires BuiltFrom(t, repo, data) && At(t, ["skills"]).Some? && DocsFit(DOCS)
    ensures Names(t.entries) == PACKAGE_ROOTS && At(t, ["docs"]).Some? && At(t, ["docs"]).value.Dir?
  {
    assert ["docs"] < PathOf(DOCS[0]);
    assert !InDocs(DOCS, ["docs"]);
    forall name ensures name in Names(t.entries) <==> name in PACKAGE_ROOTS {
      NamesAndGet(t.entries, name);
      assert At(t, [name]).Some? <==> Get(t.entries, name).Some?;
      assert BuiltAt(t, repo, data, [name]);
      NotAmongDocs([name]);
      assert !InDocs(DOCS, [name]);
      if AboveDocs(DOCS, [name]) {
        assert name == "docs";
      }
    }
    assert BuiltAt(t, repo, data, ["docs"]);
  }

  lemma BuiltDocs(t: Tree, repo: Tree, data: Bytes)
    requires BuiltFrom(t, repo, data) && DocsHold(repo, DOCS) && DocsFit(DOCS)
    requires At(t, ["docs"]).Some? && At(t, ["docs"]).value.Dir?
    ensures DocsHold(t, DOCS) && OnlyDocs(t)
  {
    forall k | 0 <= k < |DOCS| ensures DocHolds(t, DOCS[k]) {
      assert BuiltAt(t, repo, data, PathOf(DOCS[k]));
      assert DocHolds(repo, DOCS[k]);
    }
    var docs := At(t, ["docs"]).value;
    forall p ensures SilentAt(docs, ["docs"], DocumentIssues, p) {
      if At(docs, p).Some? {
        assert At(t, ["docs"] + p) == At(docs, p) by {
          assert (["docs"] + p)[1..] == p;
          assert At(t, ["docs"]) == At(Get(t.entries, "docs").value, []);
        }
        assert BuiltAt(t, repo, data, ["docs"] + p);
        assert Allowed(["docs"] + p);
      }
    }
  }

  /** Whatever was built from a valid source is sound: only its size can be wrong with it. */
  lemma {:induction false} BuiltIsSound(base: Tree, t: Tree, repo: Tree, version: string, parse: Parser, write: Writer)
    requires Proper(repo) && SourceHolds(repo) && DocsHold(repo, DOCS) && M.VersionOk(version)
    requires var m := M.BuildManifest(version);
             BaseHolds(base, repo, write(m)) && parse(write(m)) == Some(SortKeys(m))
    requires t.Dir? && Proper(t) && DocsWritten(base, t, repo, DOCS)
    ensures PackageSound(t, Some(version), parse)
    ensures BuiltFrom(t, repo, write(M.BuildManifest(version)))
  {
    var data := write(M.BuildManifest(version));
    DocsAreFit();
    DocumentsGive(base, t, repo, data);
    BuiltIsClean(t, repo, data);
    BuiltRoots(t, repo, data);
    BuiltDocs(t, repo, data);
    assert BuiltAt(t, repo, data, ["plugin.json"]);
    M.WrittenManifestIsAccepted(version);
  }

  datatype Outcome =
    | BadVersion
    | SourceRejected(issues: seq<Issue>)
    | Built(package: Tree, issues: seq<Issue>)

  /** `build_package` up to its own validation of what it built. */
  method BuildPackage(repo: Tree, version: string, parse: Parser, write: Writer) returns (o: Outcome)
    requires Proper(repo)
    requires var m := M.BuildManifest(version); parse(write(m)) == Some(SortKeys(m))
    ensures o.BadVersion? <==> !M.VersionOk(version)
    ensures o.Built? <==> M.VersionOk(version) && SourceHolds(repo) && DocsHold(repo, DOCS)
    ensures o.Built? ==>
              && BuiltFrom(o.package, repo, write(M.BuildManifest(version)))
              && PackageSound(o.package, Some(version), parse)
              && OnlySize(o.issues)
              && (o.issues == [] <==> Total(RegularFiles(o.package)) <= MAX_PACKAGE_BYTES)
  {
    if !M.VersionOk(version) {
      return BadVersion;
    }
    var issues := ValidateSkillSource(repo);
    var documents := RequiredDocuments(repo, DOCS);
    BothEmpty(issues, documents);
    issues := issues + documents;
    if issues != [] {
      return SourceRejected(issues);
    }
    var manifest := M.BuildManifest(version);
    SubtreeIsProper(repo, ["skills"]);
    var copies := CopySkills(At(repo, ["skills"]).value.entries, SKILLS);
    BaseIsRight(repo, copies, write(manifest));
    var base := Dir([Entry("plugin.json", File(write(manifest))), Entry("skills", Dir(copies))]);
    DocsAreFit();
    var t := CopyDocuments(base, repo, write(manifest), DOCS);
    BuiltIsSound(base, t, repo, version, parse, write);
    issues := ValidatePackage(t, Some(version), parse);
    o := Built(t, issues);
  }
}
