/** JSON values and the recursive walks over them, against a declarative enumeration of paths. */
module JsonWalk {
  import opened Wrappers

  datatype Field = Field(key: string, value: Json)

  /** Objects keep the order in which their keys were inserted. */
  datatype Json =
    | Null
    | Bool(b: bool)
    | Int(n: int)
    | Float(x: real)
    | Str(s: string)
    | Arr(items: seq<Json>)
    | Obj(fields: seq<Field>)

  function Arity(v: Json): nat {
    match v
    case Arr(items) => |items|
    case Obj(fields) => |fields|
    case _ => 0
  }

  function Child(v: Json, k: nat): (c: Json)
    requires k < Arity(v)
    ensures c < v
  {
    if v.Arr? then v.items[k] else v.fields[k].value
  }

  function Get(fields: seq<Field>, key: string): Option<Json> {
    if fields == [] then None else if fields[0].key == key then Some(fields[0].value) else Get(fields[1..], key)
  }

  // ---------------------------------------------------------------- the walks

  type Want = Json -> bool

  /** Child `k` is stored under one of the keys and has the wanted type. */
  predicate Hit(v: Json, k: nat, keys: set<string>, want: Want)
    requires k < Arity(v)
  {
    v.Obj? && v.fields[k].key in keys && want(v.fields[k].value)
  }

  /** The loop shared by `find_dicts` and `find_numbers`, over the first `n` children. */
  function FindIn(v: Json, keys: set<string>, want: Want, n: nat): seq<Json>
    requires n <= Arity(v)
    decreases v, n
  {
    if n == 0 then []
    else
      FindIn(v, keys, want, n - 1)
      + (if Hit(v, n - 1, keys, want) then [Child(v, n - 1)] else [])
      + Find(Child(v, n - 1), keys, want)
  }

  function Find(v: Json, keys: set<string>, want: Want): seq<Json>
    decreases v, Arity(v) + 1
  {
    FindIn(v, keys, want, Arity(v))
  }

  predicate IsDict(v: Json) { v.Obj? }

  predicate IsNumber(v: Json) { v.Int? || v.Float? }

  predicate IsText(v: Json) { v.Str? && v.s != "" }

  predicate IsCalls(v: Json) { v.Arr? || v.Obj? || v.Int? }

  /** `find_dicts`. */
  function FindDicts(v: Json, keys: set<string>): seq<Json> {
    Find(v, keys, IsDict)
  }

  function AsReal(v: Json): real {
    if v.Float? then v.x else if v.Int? then v.n as real else 0.0
  }

  /** `find_numbers`. */
  function FindNumbers(v: Json, keys: set<string>): seq<real> {
    Numbers(Find(v, keys, IsNumber))
  }

  function Numbers(vs: seq<Json>): (xs: seq<real>)
    ensures |xs| == |vs| && forall k :: 0 <= k < |vs| ==> xs[k] == AsReal(vs[k])
  {
    seq(|vs|, k requires 0 <= k < |vs| => AsReal(vs[k]))
  }

  /** `find_string` returns as soon as it has found something. */
  function FindStringIn(v: Json, keys: set<string>, n: nat): Option<string>
    requires n <= Arity(v)
    decreases v, n
  {
    if n == 0 then None
    else if FindStringIn(v, keys, n - 1).Some? then FindStringIn(v, keys, n - 1)
    else if Hit(v, n - 1, keys, IsText) then Some(Child(v, n - 1).s)
    else FindString(Child(v, n - 1), keys)
  }

  function FindString(v: Json, keys: set<string>): Option<string>
    decreases v, Arity(v) + 1
  {
    FindStringIn(v, keys, Arity(v))
  }

  const TOOL_KEYS: set<string> := {"tool_call", "toolCall", "tool_calls", "toolCalls"}

  /** A list of calls counts its items, an object is one call, a number is a count. */
  function Calls(v: Json): int {
    match v
    case Arr(items) => |items|
    case Obj(_) => 1
    case Int(n) => n
    case _ => 0
  }

  /** `count_tool_calls`. */
  function CountToolCallsIn(v: Json, n: nat): int
    requires n <= Arity(v)
    decreases v, n
  {
    if n == 0 then 0
    else
      CountToolCallsIn(v, n - 1)
      + (if v.Obj? && v.fields[n - 1].key in TOOL_KEYS then Calls(v.fields[n - 1].value) else 0)
      + CountToolCalls(Child(v, n - 1))
  }

  function CountToolCalls(v: Json): int
    decreases v, Arity(v) + 1
  {
    CountToolCallsIn(v, Arity(v))
  }

  // ---------------------------------------------------------------- paths

  type Path = seq<nat>

  function At(v: Json, p: Path): Option<Json> {
    if p == [] then Some(v) else if p[0] < Arity(v) then At(Child(v, p[0]), p[1..]) else None
  }

  /** The path leads to a value of the wanted type, stored in an object under one of the keys. */
  ghost predicate Matches(v: Json, p: Path, keys: set<string>, want: Want) {
    && p != []
    && var parent := At(v, p[..|p| - 1]);
       parent.Some? && p[|p| - 1] < Arity(parent.value) && Hit(parent.value, p[|p| - 1], keys, want)
  }

  /** Preorder: a path comes before its extensions and before the paths of later siblings. */
  predicate Before(p: Path, q: Path) {
    q != [] && (p == [] || p[0] < q[0] || (p[0] == q[0] && Before(p[1..], q[1..])))
  }

  ghost predicate Increasing(ps: seq<Path>) {
    forall i, j :: 0 <= i < j < |ps| ==> Before(ps[i], ps[j])
  }

  /** The matching paths that start below the first `n` children, each once, in preorder. */
  ghost predicate EnumeratesIn(v: Json, keys: set<string>, want: Want, n: nat, ps: seq<Path>) {
    && Increasing(ps)
    && (forall i :: 0 <= i < |ps| ==> Matches(v, ps[i], keys, want) && ps[i][0] < n)
    && (forall p :: Matches(v, p, keys, want) && p[0] < n ==> p in ps)
  }

  ghost predicate Enumerates(v: Json, keys: set<string>, want: Want, ps: seq<Path>) {
    && Increasing(ps)
    && (forall p :: p in ps <==> Matches(v, p, keys, want))
  }

  /** The list holds the values at these paths, in this order. */
  ghost predicate Lists(v: Json, ps: seq<Path>, found: seq<Json>) {
    |found| == |ps| && forall i :: 0 <= i < |ps| ==> At(v, ps[i]) == Some(found[i])
  }

  lemma MatchesBelow(v: Json, p: Path, keys: set<string>, want: Want)
    requires |p| >= 2
    ensures Matches(v, p, keys, want) <==> p[0] < Arity(v) && Matches(Child(v, p[0]), p[1..], keys, want)
  {
    assert p[..|p| - 1][1..] == p[1..][..|p| - 2];
  }

  lemma MatchesHere(v: Json, k: nat, keys: set<string>, want: Want)
    ensures Matches(v, [k], keys, want) <==> k < Arity(v) && Hit(v, k, keys, want)
    ensures k < Arity(v) ==> At(v, [k]) == Some(Child(v, k))
  {
    assert [k][..0] == [];
    if k < Arity(v) {
      assert [k][1..] == [];
      assert At(Child(v, k), []) == Some(Child(v, k));
    }
  }

  /** The paths of child `k`, seen from its parent. */
  function Under(k: nat, ps: seq<Path>): (qs: seq<Path>)
    ensures |qs| == |ps|
    ensures forall i :: 0 <= i < |ps| ==> qs[i] == [k] + ps[i]
  {
    seq(|ps|, i requires 0 <= i < |ps| => [k] + ps[i])
  }

  lemma UnderLists(v: Json, keys: set<string>, want: Want, k: nat, ps: seq<Path>, found: seq<Json>)
    requires k < Arity(v) && Enumerates(Child(v, k), keys, want, ps) && Lists(Child(v, k), ps, found)
    ensures Increasing(Under(k, ps)) && Lists(v, Under(k, ps), found)
    ensures forall i :: 0 <= i < |ps| ==> Matches(v, Under(k, ps)[i], keys, want) && |Under(k, ps)[i]| >= 2
    ensures forall p :: Matches(v, p, keys, want) && |p| >= 2 && p[0] == k ==> p in Under(k, ps)
  {
    var qs := Under(k, ps);
    forall i, j | 0 <= i < j < |ps| ensures Before(qs[i], qs[j]) {
      assert Before(ps[i], ps[j]);
      assert qs[i][1..] == ps[i] && qs[j][1..] == ps[j];
    }
    forall i | 0 <= i < |ps| ensures Matches(v, qs[i], keys, want) && |qs[i]| >= 2 && At(v, qs[i]) == Some(found[i]) {
      assert ps[i] in ps;
      assert qs[i][1..] == ps[i];
      MatchesBelow(v, qs[i], keys, want);
    }
    forall p | Matches(v, p, keys, want) && |p| >= 2 && p[0] == k ensures p in qs {
      MatchesBelow(v, p, keys, want);
      assert p[1..] in ps;
      var i :| 0 <= i < |ps| && ps[i] == p[1..];
      assert qs[i] == p;
    }
  }

  lemma ListsConcat(v: Json, ps: seq<Path>, xs: seq<Json>, qs: seq<Path>, ys: seq<Json>)
    requires Lists(v, ps, xs) && Lists(v, qs, ys)
    ensures Lists(v, ps + qs, xs + ys)
  {
  }

  lemma IncreasingConcat(ps: seq<Path>, qs: seq<Path>)
    requires Increasing(ps) && Increasing(qs)
    requires forall i, j :: 0 <= i < |ps| && 0 <= j < |qs| ==> Before(ps[i], qs[j])
    ensures Increasing(ps + qs)
  {
    forall i, j | 0 <= i < j < |ps + qs| ensures Before((ps + qs)[i], (ps + qs)[j]) {
      if i < |ps| && j >= |ps| {
        assert (ps + qs)[j] == qs[j - |ps|];
      }
    }
  }

  /** Adding the value stored at child `k` itself. */
  lemma AddHere(v: Json, keys: set<string>, want: Want, k: nat, before: seq<Path>) returns (ps: seq<Path>)
    requires k < Arity(v) && EnumeratesIn(v, keys, want, k, before) && Lists(v, before, FindIn(v, keys, want, k))
    ensures Increasing(ps)
    ensures forall i :: 0 <= i < |ps| ==> Matches(v, ps[i], keys, want) && (ps[i][0] < k || ps[i] == [k])
    ensures forall p :: Matches(v, p, keys, want) && (p[0] < k || p == [k]) ==> p in ps
    ensures Lists(v, ps, FindIn(v, keys, want, k) + if Hit(v, k, keys, want) then [Child(v, k)] else [])
  {
    MatchesHere(v, k, keys, want);
    ps := before;
    if Hit(v, k, keys, want) {
      IncreasingConcat(before, [[k]]);
      ListsConcat(v, before, FindIn(v, keys, want, k), [[k]], [Child(v, k)]);
      ps := before + [[k]];
    } else {
      assert FindIn(v, keys, want, k) + [] == FindIn(v, keys, want, k);
    }
  }

  /** Adding what lies below child `k`. */
  lemma AddBelow(v: Json, keys: set<string>, want: Want, k: nat, upTo: seq<Path>, below: seq<Path>)
    requires k < Arity(v) && Increasing(upTo) && Increasing(below)
    requires forall i :: 0 <= i < |upTo| ==> Matches(v, upTo[i], keys, want) && (upTo[i][0] < k || upTo[i] == [k])
    requires forall p :: Matches(v, p, keys, want) && (p[0] < k || p == [k]) ==> p in upTo
    requires forall i :: 0 <= i < |below| ==> Matches(v, below[i], keys, want) && |below[i]| >= 2 && below[i][0] == k
    requires forall p :: Matches(v, p, keys, want) && |p| >= 2 && p[0] == k ==> p in below
    ensures EnumeratesIn(v, keys, want, k + 1, upTo + below)
  {
    forall i, j | 0 <= i < |upTo| && 0 <= j < |below| ensures Before(upTo[i], below[j]) {
      if upTo[i] == [k] {
        assert upTo[i][1..] == [];
      }
    }
    IncreasingConcat(upTo, below);
    forall p | Matches(v, p, keys, want) && p[0] < k + 1 ensures p in upTo + below {
      if p[0] == k && |p| == 1 {
        assert p == [k];
      }
    }
  }

  /** What the walk collects from the first `n` children is the enumeration of their paths. */
  lemma {:induction false} FindInEnumerates(v: Json, keys: set<string>, want: Want, n: nat) returns (ps: seq<Path>)
    requires n <= Arity(v)
    ensures EnumeratesIn(v, keys, want, n, ps) && Lists(v, ps, FindIn(v, keys, want, n))
    decreases v, n
  {
    ps := [];
    if n > 0 {
      var k := n - 1;
      var before := FindInEnumerates(v, keys, want, k);
      var upTo := AddHere(v, keys, want, k, before);
      var below := FindEnumerates(Child(v, k), keys, want);
      UnderLists(v, keys, want, k, below, Find(Child(v, k), keys, want));
      AddBelow(v, keys, want, k, upTo, Under(k, below));
      ps := upTo + Under(k, below);
      ListsConcat(v, upTo, FindIn(v, keys, want, k) + if Hit(v, k, keys, want) then [Child(v, k)] else [],
                  Under(k, below), Find(Child(v, k), keys, want));
    }
  }

  /** `find_dicts` and `find_numbers` list every matching path exactly once, in preorder. */
  lemma {:induction false} FindEnumerates(v: Json, keys: set<string>, want: Want) returns (ps: seq<Path>)
    ensures Enumerates(v, keys, want, ps) && Lists(v, ps, Find(v, keys, want))
    decreases v, Arity(v) + 1
  {
    ps := FindInEnumerates(v, keys, want, Arity(v));
    forall p | Matches(v, p, keys, want) ensures p[0] < Arity(v) {
      if |p| >= 2 {
        MatchesBelow(v, p, keys, want);
      } else {
        assert p == [p[0]];
        MatchesHere(v, p[0], keys, want);
      }
    }
  }

  lemma {:induction false} BeforeIsStrict(p: Path, q: Path)
    requires Before(p, q)
    ensures p != q && !Before(q, p)
    decreases |p|
  {
    if p != [] && p[0] == q[0] {
      BeforeIsStrict(p[1..], q[1..]);
    }
  }

  lemma FirstIsFirst(ps: seq<Path>, qs: seq<Path>)
    requires Increasing(ps) && Increasing(qs) && ps != [] && qs != []
    requires ps[0] in qs && qs[0] in ps
    ensures ps[0] == qs[0]
  {
    var i :| 0 <= i < |ps| && ps[i] == qs[0];
    var j :| 0 <= j < |qs| && qs[j] == ps[0];
    assert i > 0 ==> Before(ps[0], qs[0]);
    assert j > 0 ==> Before(qs[0], ps[0]);
    if i > 0 {
      BeforeIsStrict(ps[0], qs[0]);
    }
  }

  /** There is only one such enumeration, so the lists above are determined by the paths alone. */
  lemma {:induction false} EnumerationIsUnique(ps: seq<Path>, qs: seq<Path>)
    requires Increasing(ps) && Increasing(qs) && forall p :: p in ps <==> p in qs
    ensures ps == qs
  {
    assert ps != [] ==> ps[0] in qs;
    assert qs != [] ==> qs[0] in ps;
    if ps != [] {
      FirstIsFirst(ps, qs);
      SameAfterFirst(ps, qs);
      EnumerationIsUnique(ps[1..], qs[1..]);
      assert ps == [ps[0]] + ps[1..] && qs == [qs[0]] + qs[1..];
    }
  }

  lemma SameAfterFirst(ps: seq<Path>, qs: seq<Path>)
    requires Increasing(ps) && Increasing(qs) && ps != [] && qs != [] && ps[0] == qs[0]
    requires forall p :: p in ps <==> p in qs
    ensures Increasing(ps[1..]) && Increasing(qs[1..]) && forall p :: p in ps[1..] <==> p in qs[1..]
  {
    InTail(ps);
    InTail(qs);
  }

  lemma InTail(ps: seq<Path>)
    requires Increasing(ps) && ps != []
    ensures forall p :: p in ps[1..] <==> p in ps && p != ps[0]
  {
    forall i | 1 <= i < |ps| ensures ps[i] != ps[0] {
      assert Before(ps[0], ps[i]);
      BeforeIsStrict(ps[0], ps[i]);
    }
  }

  // ---------------------------------------------------------------- the other two walks

  /** `find_string` is the first of the non-empty strings in preorder. */
  lemma {:induction false} FindStringIsFirstIn(v: Json, keys: set<string>, n: nat)
    requires n <= Arity(v)
    ensures var all := FindIn(v, keys, IsText, n);
            FindStringIn(v, keys, n) == if all == [] then None else Some(AsText(all[0]))
    decreases v, n
  {
    if n > 0 {
      FindStringIsFirstIn(v, keys, n - 1);
      FindStringIsFirst(Child(v, n - 1), keys);
    }
  }

  function AsText(v: Json): string {
    if v.Str? then v.s else ""
  }

  lemma {:induction false} FindStringIsFirst(v: Json, keys: set<string>)
    ensures var all := Find(v, keys, IsText);
            FindString(v, keys) == if all == [] then None else Some(AsText(all[0]))
    decreases v, Arity(v) + 1
  {
    FindStringIsFirstIn(v, keys, Arity(v));
  }

  function SumCalls(vs: seq<Json>): int {
    if vs == [] then 0 else SumCalls(vs[..|vs| - 1]) + Calls(vs[|vs| - 1])
  }

  lemma {:induction false} SumCallsConcat(a: seq<Json>, b: seq<Json>)
    ensures SumCalls(a + b) == SumCalls(a) + SumCalls(b)
  {
    if b == [] {
      assert a + b == a;
    } else {
      SumCallsConcat(a, b[..|b| - 1]);
      assert (a + b)[..|a + b| - 1] == a + b[..|b| - 1];
    }
  }

  lemma SumCallsStep(before: seq<Json>, own: seq<Json>, below: seq<Json>)
    requires |own| <= 1
    ensures SumCalls(before + own + below) == SumCalls(before) + (if own == [] then 0 else Calls(own[0])) + SumCalls(below)
  {
    assert own != [] ==> own[..0] == [];
    SumCallsConcat(before, own);
    SumCallsConcat(before + own, below);
  }

  /** `count_tool_calls` adds up every list, object and number stored under a tool-call key. */
  lemma {:induction false} CountIsSumIn(v: Json, n: nat)
    requires n <= Arity(v)
    ensures CountToolCallsIn(v, n) == SumCalls(FindIn(v, TOOL_KEYS, IsCalls, n))
    decreases v, n
  {
    if n > 0 {
      CountIsSumIn(v, n - 1);
      CountIsSum(Child(v, n - 1));
      var own := if Hit(v, n - 1, TOOL_KEYS, IsCalls) then [Child(v, n - 1)] else [];
      SumCallsStep(FindIn(v, TOOL_KEYS, IsCalls, n - 1), own, Find(Child(v, n - 1), TOOL_KEYS, IsCalls));
    }
  }

  lemma {:induction false} CountIsSum(v: Json)
    ensures CountToolCalls(v) == SumCalls(Find(v, TOOL_KEYS, IsCalls))
    decreases v, Arity(v) + 1
  {
    CountIsSumIn(v, Arity(v));
  }

  // ---------------------------------------------------------------- lists of values

  lemma FindInList(xs: seq<Json>, keys: set<string>, want: Want, n: nat)
    requires n < |xs|
    ensures FindIn(Arr(xs), keys, want, n + 1) == FindIn(Arr(xs), keys, want, n) + Find(xs[n], keys, want)
  {
    assert Child(Arr(xs), n) == xs[n];
  }

  lemma {:induction false} FindInPrefix(a: seq<Json>, b: seq<Json>, keys: set<string>, want: Want, n: nat)
    requires n <= |a|
    ensures FindIn(Arr(a + b), keys, want, n) == FindIn(Arr(a), keys, want, n)
  {
    if n > 0 {
      FindInPrefix(a, b, keys, want, n - 1);
      FindInList(a + b, keys, want, n - 1);
      FindInList(a, keys, want, n - 1);
    }
  }

  lemma {:induction false} FindInSuffix(a: seq<Json>, b: seq<Json>, keys: set<string>, want: Want, n: nat)
    requires n <= |b|
    ensures FindIn(Arr(a + b), keys, want, |a| + n) == Find(Arr(a), keys, want) + FindIn(Arr(b), keys, want, n)
  {
    if n == 0 {
      FindInPrefix(a, b, keys, want, |a|);
    } else {
      var m, found := n - 1, Find(Arr(a), keys, want);
      FindInSuffix(a, b, keys, want, m);
      var whole := FindIn(Arr(a + b), keys, want, |a| + m);
      FindInList(a + b, keys, want, |a| + m);
      FindInList(b, keys, want, m);
      Associate(found, FindIn(Arr(b), keys, want, m), Find(b[m], keys, want));
      assert FindIn(Arr(a + b), keys, want, |a| + n) == whole + Find(b[m], keys, want);
    }
  }

  lemma Associate(a: seq<Json>, b: seq<Json>, c: seq<Json>)
    ensures (a + b) + c == a + (b + c)
  {
  }

  /** Every walk distributes over the concatenation of lists. */
  lemma FindConcat(a: seq<Json>, b: seq<Json>, keys: set<string>, want: Want)
    ensures Find(Arr(a + b), keys, want) == Find(Arr(a), keys, want) + Find(Arr(b), keys, want)
  {
    FindInSuffix(a, b, keys, want, |b|);
  }

  lemma FindNumbersConcat(a: seq<Json>, b: seq<Json>, keys: set<string>)
    ensures FindNumbers(Arr(a + b), keys) == FindNumbers(Arr(a), keys) + FindNumbers(Arr(b), keys)
  {
    FindConcat(a, b, keys, IsNumber);
  }

  lemma FindStringConcat(a: seq<Json>, b: seq<Json>, keys: set<string>)
    ensures FindString(Arr(a + b), keys)
            == if FindString(Arr(a), keys).Some? then FindString(Arr(a), keys) else FindString(Arr(b), keys)
  {
    FindConcat(a, b, keys, IsText);
    FindStringIsFirst(Arr(a), keys);
    FindStringIsFirst(Arr(b), keys);
    FindStringIsFirst(Arr(a + b), keys);
  }

  lemma CountConcat(a: seq<Json>, b: seq<Json>)
    ensures CountToolCalls(Arr(a + b)) == CountToolCalls(Arr(a)) + CountToolCalls(Arr(b))
  {
    FindConcat(a, b, TOOL_KEYS, IsCalls);
    CountIsSum(Arr(a));
    CountIsSum(Arr(b));
    CountIsSum(Arr(a + b));
    SumCallsConcat(Find(Arr(a), TOOL_KEYS, IsCalls), Find(Arr(b), TOOL_KEYS, IsCalls));
  }
}
