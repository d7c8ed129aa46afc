/** Relative paths as strings and as parts, and the overlap test on folded keys.  Splitting at the
    separators and joining the parts are inverse, so a test on strings says something about parts: a
    string starts with another and a separator exactly when its parts properly extend the other's. */
module PortablePaths {
  type Path = seq<string>

  function Split(s: string): (parts: Path)
    ensures parts != [] && forall k :: 0 <= k < |parts| ==> SlashFree(parts[k])
  {
    if s == "" then [""]
    else
      var rest := Split(s[1..]);
      if s[0] == '/' then [""] + rest else [[s[0]] + rest[0]] + rest[1..]
  }

  predicate SlashFree(s: string) {
    forall k :: 0 <= k < |s| ==> s[k] != '/'
  }

  function Join(parts: Path): string
    requires parts != []
  {
    if |parts| == 1 then parts[0] else parts[0] + "/" + Join(parts[1..])
  }

  /** The path as a string; the place without parts has no name. */
  function NameOf(p: Path): string {
    if p == [] then "" else Join(p)
  }

  lemma {:induction false} JoinSplit(s: string)
    ensures Join(Split(s)) == s
  {
    if s != "" {
      JoinSplit(s[1..]);
      var rest := Split(s[1..]);
      if s[0] == '/' {
        assert ([""] + rest)[1..] == rest;
      } else if |rest| > 1 {
        assert ([[s[0]] + rest[0]] + rest[1..])[1..] == rest[1..];
        assert [s[0]] + (rest[0] + "/" + Join(rest[1..])) == ([s[0]] + rest[0]) + "/" + Join(rest[1..]);
      }
    }
  }

  lemma {:induction false} JoinConcat(a: Path, b: Path)
    requires a != [] && b != []
    ensures Join(a + b) == Join(a) + "/" + Join(b)
  {
    if |a| == 1 {
      assert (a + b)[1..] == b;
    } else {
      JoinConcat(a[1..], b);
      assert (a + b)[1..] == a[1..] + b;
      assert a[0] + "/" + (Join(a[1..]) + "/" + Join(b)) == (a[0] + "/" + Join(a[1..])) + "/" + Join(b);
    }
  }

  /** Splitting at a separator splits the parts. */
  lemma {:induction false} SplitConcat(s: string, t: string)
    ensures Split(s + "/" + t) == Split(s) + Split(t)
  {
    var whole := s + "/" + t;
    if s == "" {
      assert whole[1..] == t;
    } else {
      SplitConcat(s[1..], t);
      assert whole[1..] == s[1..] + "/" + t;
      PushConcat(s[0], Split(s[1..]), Split(t));
    }
  }

  lemma PushConcat(c: char, a: Path, b: Path)
    requires a != []
    ensures [""] + (a + b) == ([""] + a) + b
    ensures [[c] + (a + b)[0]] + (a + b)[1..] == ([[c] + a[0]] + a[1..]) + b
  {
  }

  /** Folding a path part by part. */
  function Fold(f: string -> string, parts: Path): (r: Path)
    ensures |r| == |parts| && forall k :: 0 <= k < |parts| ==> r[k] == f(parts[k])
  {
    seq(|parts|, k requires 0 <= k < |parts| => f(parts[k]))
  }

  lemma {:induction false} SplitJoin(parts: Path)
    requires parts != [] && forall k :: 0 <= k < |parts| ==> SlashFree(parts[k])
    ensures Split(Join(parts)) == parts
  {
    SplitOne(parts[0]);
    if |parts| > 1 {
      SplitJoin(parts[1..]);
      SplitConcat(parts[0], Join(parts[1..]));
    }
  }

  lemma {:induction false} SplitOne(s: string)
    requires SlashFree(s)
    ensures Split(s) == [s]
  {
    if s != "" {
      SplitOne(s[1..]);
      assert [s[0]] + s[1..] == s;
    }
  }

  function Separated(s: string): string {
    s + "/"
  }

  /** The overlap test of the source: equal keys, or one key starts with the other and a separator. */
  predicate Overlap(s: string, t: string) {
    s == t || Separated(t) <= s || Separated(s) <= t
  }

  /** A key starts with another and a separator exactly when its parts properly extend the other's. */
  lemma StartsWithIsPrefix(s: string, t: string)
    ensures Separated(t) <= s <==> Split(t) <= Split(s) && |Split(t)| < |Split(s)|
  {
    if Separated(t) <= s {
      var u := s[|t| + 1..];
      assert s == t + "/" + u;
      SplitConcat(t, u);
    }
    if Split(t) <= Split(s) && |Split(t)| < |Split(s)| {
      var rest := Split(s)[|Split(t)|..];
      assert Split(s) == Split(t) + rest;
      JoinConcat(Split(t), rest);
      JoinSplit(s);
      JoinSplit(t);
      assert s == Separated(t) + Join(rest);
    }
  }

  /** So two keys overlap exactly when one list of parts is a prefix of the other. */
  lemma OverlapIsPrefix(s: string, t: string)
    ensures Overlap(s, t) <==> Split(s) <= Split(t) || Split(t) <= Split(s)
  {
    StartsWithIsPrefix(s, t);
    StartsWithIsPrefix(t, s);
    if Split(s) == Split(t) {
      JoinSplit(s);
      JoinSplit(t);
    }
  }

  // ---------------------------------------------------------------- which values are accepted

  /** How the host folds names: canonical composition and case, or case alone. */
  datatype Folding = Folding(full: string -> string, caseOnly: string -> string)

  const DEVICES: set<string> := {
    "con", "prn", "aux", "nul",
    "com1", "com2", "com3", "com4", "com5", "com6", "com7", "com8", "com9",
    "lpt1", "lpt2", "lpt3", "lpt4", "lpt5", "lpt6", "lpt7", "lpt8", "lpt9"}

  function Stem(part: string): string {
    if part == "" || part[0] == '.' then "" else [part[0]] + Stem(part[1..])
  }

  predicate PartAllowed(part: string, f: Folding) {
    && part != ".." && f.caseOnly(part) != ".git"
    && (part != "" ==> part[|part| - 1] !in {'.', ' '})
    && f.caseOnly(Stem(part)) !in DEVICES
  }

  /** `relative`.  A value is the canonical spelling of its path when it has no empty part and no part
      that is a single dot; the value that is nothing but a dot has no parts at all and is accepted. */
  predicate Relative(value: string, f: Folding) {
    && value != "" && (forall k :: 0 <= k < |value| ==> value[k] != '\\' && value[k] != ':')
    && (value == "."
        || forall k :: 0 <= k < |Split(value)| ==>
             Split(value)[k] != "" && Split(value)[k] != "." && PartAllowed(Split(value)[k], f))
  }

  /** The parts a value names below a root. */
  function Parts(value: string): Path {
    if value == "." then [] else Split(value)
  }

  /** The key under which a value is remembered. */
  function Key(value: string, f: Folding): string {
    Join(Fold(f.full, Split(value)))
  }

  /** Folding maps parts to parts. */
  ghost predicate KeepsParts(f: Folding) {
    forall p :: SlashFree(p) ==> SlashFree(f.full(p))
  }

  lemma KeyParts(value: string, f: Folding)
    requires KeepsParts(f)
    ensures Split(Key(value, f)) == Fold(f.full, Split(value))
  {
    SplitJoin(Fold(f.full, Split(value)));
  }
}
