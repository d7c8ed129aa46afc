/** The portable plugin manifest: what the builder writes for a version, and which JSON values both
    validators accept.  Of the fields only the name, the schema and the version are required to agree
    with anything; the others only have to be well formed.  The order of the fields does not matter. */
module AgentPackageManifests {
  import opened Wrappers
  import opened JsonWalk
  import opened JsonOrder

  const SCHEMA_ID := "https://agent-plugins.org/schemas/1.0.0/plugin.schema.json"
  const PLUGIN_NAME := "agent-lifecycle-kit"
  const FIELDS: set<string> := {
    "$schema", "name", "version", "description", "author", "homepage", "repository", "license", "keywords", "extensions"}
  const AUTHOR_FIELDS: set<string> := {"name", "email", "url"}

  predicate IsDigit(c: char) {
    '0' <= c <= '9'
  }

  predicate IsAlnum(c: char) {
    'a' <= c <= 'z' || IsDigit(c)
  }

  /** How many digits the text starts with. */
  function Digits(s: string): (n: nat)
    ensures n <= |s|
  {
    if s != "" && IsDigit(s[0]) then 1 + Digits(s[1..]) else 0
  }

  predicate TagOk(s: string) {
    s == "" || (|s| >= 2 && s[0] in {'-', '+'}
                && forall k :: 1 <= k < |s| ==> IsDigit(s[k]) || 'A' <= s[k] <= 'Z' || 'a' <= s[k] <= 'z' || s[k] in {'.', '-'})
  }

  /** Three dotted numbers and an optional tag. */
  predicate VersionOk(s: string) {
    var a := Digits(s);
    a > 0 && a < |s| && s[a] == '.'
    && var s1 := s[a + 1..];
    var b := Digits(s1);
    b > 0 && b < |s1| && s1[b] == '.'
    && var s2 := s1[b + 1..];
    Digits(s2) > 0 && TagOk(s2[Digits(s2)..])
  }

  predicate NameOk(s: string) {
    && 1 <= |s| <= 64
    && IsAlnum(s[0]) && IsAlnum(s[|s| - 1])
    && (forall k :: 0 <= k < |s| ==> IsAlnum(s[k]) || s[k] in {'.', '-'})
    && (forall k :: 0 <= k < |s| - 1 ==> !(s[k] == s[k + 1] && s[k] in {'.', '-'}))
  }

  predicate AbsentOrText(fs: seq<Field>, key: string) {
    var v := Get(fs, key);
    v.None? || v.value.Str?
  }

  predicate NothingOr(v: Option<Json>, ok: bool) {
    v.None? || v.value.Null? || ok
  }

  predicate TextsOnly(items: seq<Json>) {
    forall k :: 0 <= k < |items| ==> items[k].Str?
  }

  predicate VersionAccepted(v: Option<Json>, expected: Option<string>) {
    && NothingOr(v, v.Some? && v.value.Str? && VersionOk(v.value.s))
    && (expected.Some? ==> v == Some(Str(expected.value)))
  }

  predicate AuthorField(f: Field) {
    f.key in AUTHOR_FIELDS && f.value.Str?
  }

  predicate ExtensionField(f: Field) {
    f.value.Obj?
  }

  predicate KnownField(f: Field) {
    f.key in FIELDS
  }

  predicate AuthorAccepted(v: Option<Json>) {
    NothingOr(v, v.Some? && v.value.Obj? && AllFields(v.value.fields, AuthorField))
  }

  predicate ExtensionsAccepted(v: Option<Json>) {
    NothingOr(v, v.Some? && v.value.Obj? && AllFields(v.value.fields, ExtensionField))
  }

  predicate KeywordsAccepted(v: Option<Json>) {
    v.None? || (v.value.Arr? && TextsOnly(v.value.items))
  }

  /** The conditions on single fields. */
  predicate FieldsAccepted(fs: seq<Field>, expected: Option<string>) {
    IdentityAccepted(fs, expected) && TextsAccepted(fs) && StructuresAccepted(fs)
  }

  predicate IdentityAccepted(fs: seq<Field>, expected: Option<string>) {
    && Get(fs, "$schema") == Some(Str(SCHEMA_ID))
    && NameAccepted(Get(fs, "name"))
    && VersionAccepted(Get(fs, "version"), expected)
  }

  predicate NameAccepted(v: Option<Json>) {
    v.Some? && v.value.Str? && NameOk(v.value.s)
  }

  predicate TextsAccepted(fs: seq<Field>) {
    && AbsentOrText(fs, "description") && AbsentOrText(fs, "homepage")
    && AbsentOrText(fs, "repository") && AbsentOrText(fs, "license")
  }

  predicate StructuresAccepted(fs: seq<Field>) {
    && KeywordsAccepted(Get(fs, "keywords"))
    && AuthorAccepted(Get(fs, "author"))
    && ExtensionsAccepted(Get(fs, "extensions"))
  }

  /** `validate_manifest` finds nothing. */
  predicate Accepted(m: Json, expected: Option<string>) {
    m.Obj? && AllFields(m.fields, KnownField) && FieldsAccepted(m.fields, expected)
  }

  /** `build_plugin_manifest`, for a version that was checked before. */
  function BuildManifest(version: string): Json {
    Obj([
      Field("$schema", Str(SCHEMA_ID)),
      Field("name", Str(PLUGIN_NAME)),
      Field("version", Str(version)),
      Field("description", Str("Provider-neutral lifecycle skills for planning, execution, validation and proof.")),
      Field("author", Obj([Field("name", Str("Agent Lifecycle Kit contributors"))])),
      Field("homepage", Str("https://github.com/avksp/agent-lifecycle-kit")),
      Field("repository", Str("https://github.com/avksp/agent-lifecycle-kit")),
      Field("license", Str("Apache-2.0")),
      Field("keywords", Arr([Str("agent-lifecycle"), Str("agent-workflows"), Str("coding-agents"), Str("sdd")]))])
  }

  lemma {:induction false} GetAt(fields: seq<Field>, key: string, k: nat)
    requires k < |fields| && fields[k].key == key && forall j :: 0 <= j < k ==> fields[j].key != key
    ensures Get(fields, key) == Some(fields[k].value)
  {
    if k > 0 {
      GetAt(fields[1..], key, k - 1);
    }
  }

  lemma {:induction false} GetAbsent(fields: seq<Field>, key: string)
    requires forall j :: 0 <= j < |fields| ==> fields[j].key != key
    ensures Get(fields, key) == None
  {
    if fields != [] {
      GetAbsent(fields[1..], key);
    }
  }

  lemma PluginNameIsOk()
    ensures NameOk(PLUGIN_NAME)
  {
  }

  lemma Requirements(fields: seq<Field>, version: string)
    requires BuildManifest(version) == Obj(fields)
    ensures Get(fields, "$schema") == Some(Str(SCHEMA_ID)) && Get(fields, "name") == Some(Str(PLUGIN_NAME))
    ensures Get(fields, "version") == Some(Str(version))
  {
    GetAt(fields, "$schema", 0);
    GetAt(fields, "name", 1);
    GetAt(fields, "version", 2);
  }

  lemma Descriptions(fields: seq<Field>, version: string)
    requires BuildManifest(version) == Obj(fields)
    ensures AbsentOrText(fields, "description") && AbsentOrText(fields, "homepage")
    ensures AbsentOrText(fields, "repository") && AbsentOrText(fields, "license")
  {
    DescriptionAndPage(fields, version);
    RepositoryAndLicense(fields, version);
  }

  lemma {:induction false} DescriptionAndPage(fields: seq<Field>, version: string)
    requires BuildManifest(version) == Obj(fields)
    ensures AbsentOrText(fields, "description") && AbsentOrText(fields, "homepage")
  {
    GetAt(fields, "description", 3);
    GetAt(fields, "homepage", 5);
  }

  lemma RepositoryAndLicense(fields: seq<Field>, version: string)
    requires BuildManifest(version) == Obj(fields)
    ensures AbsentOrText(fields, "repository") && AbsentOrText(fields, "license")
  {
    GetAt(fields, "repository", 6);
    GetAt(fields, "license", 7);
  }

  lemma {:induction false} Structures(fields: seq<Field>, version: string)
    requires BuildManifest(version) == Obj(fields)
    ensures AuthorAccepted(Get(fields, "author")) && KeywordsAccepted(Get(fields, "keywords"))
    ensures ExtensionsAccepted(Get(fields, "extensions"))
  {
    GetAt(fields, "author", 4);
    GetAt(fields, "keywords", 8);
    GetAbsent(fields, "extensions");
  }

  lemma TextStays(v: Json)
    ensures SortKeys(v).Str? <==> v.Str?
    ensures v.Str? ==> SortKeys(v) == v
    ensures SortKeys(v).Obj? <==> v.Obj?
    ensures SortKeys(v).Arr? <==> v.Arr?
    ensures SortKeys(v).Null? <==> v.Null?
  {
  }

  /** The author's and the extensions' fields, whatever their order. */
  lemma StructuresStay(v: Option<Json>)
    ensures AuthorAccepted(Sorted(v)) <==> AuthorAccepted(v)
    ensures ExtensionsAccepted(Sorted(v)) <==> ExtensionsAccepted(v)
  {
    if v.Some? {
      TextStays(v.value);
      if v.value.Obj? {
        FieldValuesStay(v.value.fields);
        AllSorted(v.value.fields, AuthorField);
        AllSorted(v.value.fields, ExtensionField);
      }
    }
  }

  lemma FieldValuesStay(fs: seq<Field>)
    ensures forall k :: 0 <= k < |fs| ==>
              (AuthorField(Field(fs[k].key, SortKeys(fs[k].value))) <==> AuthorField(fs[k]))
              && (ExtensionField(Field(fs[k].key, SortKeys(fs[k].value))) <==> ExtensionField(fs[k]))
  {
    forall k | 0 <= k < |fs|
      ensures (AuthorField(Field(fs[k].key, SortKeys(fs[k].value))) <==> AuthorField(fs[k]))
              && (ExtensionField(Field(fs[k].key, SortKeys(fs[k].value))) <==> ExtensionField(fs[k]))
    {
      TextStays(fs[k].value);
    }
  }

  lemma TextsStay(v: Option<Json>, expected: Option<string>)
    ensures VersionAccepted(Sorted(v), expected) <==> VersionAccepted(v, expected)
    ensures KeywordsAccepted(Sorted(v)) <==> KeywordsAccepted(v)
    ensures Sorted(v).Some? && Sorted(v).value.Str? <==> v.Some? && v.value.Str?
    ensures v.Some? && v.value.Str? ==> Sorted(v) == v
  {
    if v.Some? {
      TextStays(v.value);
      if v.value.Arr? {
        forall k | 0 <= k < |v.value.items| {
          TextStays(v.value.items[k]);
        }
      }
    }
  }

  /** The sorted fields store what the fields store, sorted. */
  ghost predicate Agree(fs: seq<Field>, gs: seq<Field>) {
    forall key :: Get(gs, key) == Sorted(Get(fs, key))
  }

  lemma IdentityStays(fs: seq<Field>, gs: seq<Field>, expected: Option<string>)
    requires Agree(fs, gs)
    ensures IdentityAccepted(gs, expected) <==> IdentityAccepted(fs, expected)
  {
    TextStaysUnder(Get(fs, "$schema"), SCHEMA_ID);
    NameStays(Get(fs, "name"));
    TextsStay(Get(fs, "version"), expected);
  }

  lemma TextStaysUnder(v: Option<Json>, text: string)
    ensures Sorted(v) == Some(Str(text)) <==> v == Some(Str(text))
  {
    if v.Some? {
      TextStays(v.value);
    }
  }

  lemma NameStays(v: Option<Json>)
    ensures NameAccepted(Sorted(v)) <==> NameAccepted(v)
  {
    if v.Some? {
      TextStays(v.value);
    }
  }

  lemma AllTextsStay(fs: seq<Field>, gs: seq<Field>)
    requires Agree(fs, gs)
    ensures TextsAccepted(gs) <==> TextsAccepted(fs)
  {
    TextsStay(Get(fs, "description"), None);
    TextsStay(Get(fs, "homepage"), None);
    TextsStay(Get(fs, "repository"), None);
    TextsStay(Get(fs, "license"), None);
  }

  lemma AllStructuresStay(fs: seq<Field>, gs: seq<Field>)
    requires Agree(fs, gs)
    ensures StructuresAccepted(gs) <==> StructuresAccepted(fs)
  {
    TextsStay(Get(fs, "keywords"), None);
    StructuresStay(Get(fs, "author"));
    StructuresStay(Get(fs, "extensions"));
  }

  lemma SortedAgree(fs: seq<Field>)
    ensures Agree(fs, SortFields(fs))
  {
    forall key ensures Get(SortFields(fs), key) == Sorted(Get(fs, key)) {
      GetSorted(fs, key);
    }
  }

  /** Acceptance does not depend on the order of keys, for any JSON value: what was written with sorted
      keys is accepted exactly when it was acceptable before. */
  lemma AcceptanceIgnoresOrder(m: Json, expected: Option<string>)
    ensures Accepted(SortKeys(m), expected) <==> Accepted(m, expected)
  {
    TextStays(m);
    if m.Obj? {
      SortedAgree(m.fields);
      AllSorted(m.fields, KnownField);
      IdentityStays(m.fields, SortFields(m.fields), expected);
      AllTextsStay(m.fields, SortFields(m.fields));
      AllStructuresStay(m.fields, SortFields(m.fields));
    }
  }

  lemma {:induction false} BuiltManifestIsAccepted(version: string)
    ensures Accepted(BuildManifest(version), Some(version)) <==> VersionOk(version)
    ensures Get(BuildManifest(version).fields, "name") == Some(Str(PLUGIN_NAME))
  {
    var m := BuildManifest(version);
    Requirements(m.fields, version);
    Descriptions(m.fields, version);
    Structures(m.fields, version);
    PluginNameIsOk();
  }

  /** The manifest the builder writes, read back with its keys in the writer's order, is accepted exactly
      for well-formed versions. */
  lemma WrittenManifestIsAccepted(version: string)
    ensures var m := SortKeys(BuildManifest(version));
            && m.Obj? && (Accepted(m, Some(version)) <==> VersionOk(version))
            && Get(m.fields, "name") == Some(Str(PLUGIN_NAME))
  {
    BuiltManifestIsAccepted(version);
    AcceptanceIgnoresOrder(BuildManifest(version), Some(version));
    SortedAgree(BuildManifest(version).fields);
    TextStaysUnder(Get(BuildManifest(version).fields, "name"), PLUGIN_NAME);
  }
}
