/** Test events without source lines and clock readings. */
module CanonicalEvents {
  // Line labels that select a lambda are replaced by what they select, and the two clock observations
  // of one bound test by their roles.

  import opened Wrappers

  const HOT_MODULE := "tests.workflow.test_limited_usage"
  const CLOCK_CLASS := "ProspectiveAdmissionProcedureTests"
  const CLOCK_METHOD := "test_expired_admission_live_run_task_and_exact_deadline_refuse"
  const CLOCK_METHOD_SHA256 := "5a8e553113f598b415429e13bca8d75e50c390d02dcb6239aeba9f369b6a4aa6"
  const CLOCK_LOOP_SHA256 := "5bc591fa37ac1a27dedc4822fc55fca1e666597d069366050f8d24aaa6ceca89"
  const CLOCK_CASE := 46
  const SECOND := 1000000

  function Key(cls: string, name: string): string {
    HOT_MODULE + "." + cls + "." + name
  }

  const CLOCK_ID := Key(CLOCK_CLASS, CLOCK_METHOD)

  const LINE_SELECTORS: map<string, string> := map[
    Key("AccountingOnlyClockTests",
        "test_accounting_only_cannot_authorize_current_receipt_frontier_or_refresh") := "consumer",
    Key("SourceConflictRecoveryTests", "test_recovery_unknown_or_edited_disposition_denied") := "mutation"]

  // ---------------------------------------------------------------- sources and traces

  /** A lambda: its syntax without positions, and the line it starts on. */
  datatype Lambda = Lambda(dump: string, line: nat)

  /** What a `for` loop iterates over: a tuple of lambdas, or something else. */
  datatype Iter = Lambdas(elts: seq<Lambda>) | OtherIter

  /** A keyword argument; `lineOf` is `x` when its value is `x.__code__.co_firstlineno`. */
  datatype Keyword = Keyword(arg: string, lineOf: Option<string>)

  datatype Call = Call(subTest: bool, keywords: seq<Keyword>)

  datatype Loop = Loop(iter: Iter, target: Option<string>, calls: seq<Call>)

  /** A method: the digests of its syntax and of its own top-level loops, and every loop in it. */
  datatype Method = Method(name: string, digest: string, topLoops: seq<string>, loops: seq<Loop>)

  datatype Class = Class(name: string, methods: seq<Method>)

  type Source = seq<Class>

  /** The value of a label field.  `Selector` stands for the digest of its three parts. */
  datatype Value =
    | Num(n: nat)
    | Time(micros: int)
    | Text(text: string)
    | Selector(parent: string, dump: string, occurrence: nat)

  datatype Field = Field(name: string, value: Value)

  datatype Id = Id(base: string, fields: seq<Field>)

  datatype Outcome = SubTest(result: string) | Plain(result: string)

  datatype Event = Event(id: Id, outcome: Outcome, caseIndex: Option<nat>)

  // ---------------------------------------------------------------- line-selector channels

  /** A subtest parameter that carries the line of the lambda its loop is at. */
  datatype Channel = Channel(key: string, arg: string, choices: seq<Lambda>)

  function KeywordChannels(key: string, target: Option<string>, choices: seq<Lambda>, ks: seq<Keyword>): seq<Channel> {
    if ks == [] then []
    else (if ks[0].lineOf.Some? && ks[0].lineOf == target then [Channel(key, ks[0].arg, choices)] else [])
         + KeywordChannels(key, target, choices, ks[1..])
  }

  function CallChannels(key: string, target: Option<string>, choices: seq<Lambda>, cs: seq<Call>): seq<Channel> {
    if cs == [] then []
    else (if cs[0].subTest then KeywordChannels(key, target, choices, cs[0].keywords) else [])
         + CallChannels(key, target, choices, cs[1..])
  }

  function LoopChannels(key: string, ls: seq<Loop>): seq<Channel> {
    if ls == [] then []
    else (if ls[0].iter.Lambdas? then CallChannels(key, ls[0].target, ls[0].iter.elts, ls[0].calls) else [])
         + LoopChannels(key, ls[1..])
  }

  function MethodChannels(cls: string, ms: seq<Method>): seq<Channel> {
    if ms == [] then [] else LoopChannels(Key(cls, ms[0].name), ms[0].loops) + MethodChannels(cls, ms[1..])
  }

  function Channels(s: Source): seq<Channel> {
    if s == [] then [] else MethodChannels(s[0].name, s[0].methods) + Channels(s[1..])
  }

  predicate Recognised(c: Channel) {
    c.key in LINE_SELECTORS && LINE_SELECTORS[c.key] == c.arg
  }

  predicate ChannelsOk(cs: seq<Channel>) {
    && (forall c <- cs :: Recognised(c))
    && (forall i, j :: 0 <= i < j < |cs| ==> cs[i].key != cs[j].key)
  }

  type Selectors = map<string, Channel>

  function SelectorsOf(cs: seq<Channel>): Selectors {
    if cs == [] then map[] else SelectorsOf(cs[..|cs| - 1])[cs[|cs| - 1].key := cs[|cs| - 1]]
  }

  lemma {:induction false} SelectorKeys(cs: seq<Channel>)
    ensures forall k :: k in SelectorsOf(cs) <==> exists c <- cs :: c.key == k
    ensures forall k <- SelectorsOf(cs) :: SelectorsOf(cs)[k] in cs && SelectorsOf(cs)[k].key == k
  {
    if cs != [] {
      var n := |cs| - 1;
      SelectorKeys(cs[..n]);
      assert cs == cs[..n] + [cs[n]];
    }
  }

  lemma ChannelsOkStep(cs: seq<Channel>, i: nat)
    requires i < |cs| && ChannelsOk(cs[..i])
    ensures SelectorsOf(cs[..i + 1]) == SelectorsOf(cs[..i])[cs[i].key := cs[i]]
    ensures ChannelsOk(cs[..i + 1]) <==> Recognised(cs[i]) && cs[i].key !in SelectorsOf(cs[..i])
    ensures !ChannelsOk(cs[..i + 1]) ==> !ChannelsOk(cs)
  {
    assert cs[..i + 1] == cs[..i] + [cs[i]];
    SelectorKeys(cs[..i]);
    OneMoreChannel(cs[..i], cs[i]);
    PrefixIsOk(cs, i + 1);
  }

  lemma OneMoreChannel(cs: seq<Channel>, c: Channel)
    requires ChannelsOk(cs)
    ensures ChannelsOk(cs + [c]) <==> Recognised(c) && forall d <- cs :: d.key != c.key
  {
    var more := cs + [c];
    assert more[|cs|] == c && c in more;
    assert forall i :: 0 <= i < |cs| ==> more[i] == cs[i];
    if exists d <- cs :: d.key == c.key {
      var i :| 0 <= i < |cs| && cs[i].key == c.key;
      assert more[i].key == more[|cs|].key;
    }
  }

  lemma PrefixIsOk(cs: seq<Channel>, n: nat)
    requires n <= |cs|
    ensures ChannelsOk(cs) ==> ChannelsOk(cs[..n])
  {
    assert forall c :: c in cs[..n] ==> c in cs;
  }

  /** The selector map, or none when a channel is unknown or occurs twice. */
  method FindSelectors(s: Source) returns (sel: Option<Selectors>)
    ensures sel == if ChannelsOk(Channels(s)) then Some(SelectorsOf(Channels(s))) else None
  {
    var cs := Channels(s);
    var found: Selectors := map[];
    for i := 0 to |cs|
      invariant ChannelsOk(cs[..i]) && found == SelectorsOf(cs[..i])
    {
      ChannelsOkStep(cs, i);
      if cs[i].key in found || !Recognised(cs[i]) { return None; }
      found := found[cs[i].key := cs[i]];
    }
    assert cs[..|cs|] == cs;
    sel := Some(found);
  }

  // ---------------------------------------------------------------- specification of the rewrite

  predicate Selected(sel: Selectors, e: Event) {
    e.id.base in sel && e.outcome.SubTest?
  }

  /** How many of the first `n` events are selected subtests of `base`. */
  function Seen(sel: Selectors, es: seq<Event>, base: string, n: nat): nat
    requires n <= |es|
  {
    if n == 0 then 0
    else Seen(sel, es, base, n - 1) + if Selected(sel, es[n - 1]) && es[n - 1].id.base == base then 1 else 0
  }

  /** The number in the first numeric field of that name. */
  function LineLabel(fs: seq<Field>, arg: string): Option<nat> {
    if fs == [] then None
    else if fs[0].name == arg && fs[0].value.Num? then Some(fs[0].value.n)
    else LineLabel(fs[1..], arg)
  }

  function Relabel(fs: seq<Field>, arg: string, v: Value): (r: seq<Field>)
    ensures |r| == |fs|
    ensures forall k :: 0 <= k < |fs| ==>
      r[k] == if fs[k].name == arg && fs[k].value.Num? then Field(arg, v) else fs[k]
  {
    seq(|fs|, k requires 0 <= k < |fs| =>
      if fs[k].name == arg && fs[k].value.Num? then Field(arg, v) else fs[k])
  }

  /** The `i`th event carries the line of the lambda that is due. */
  predicate Proven(sel: Selectors, es: seq<Event>, i: nat)
    requires i < |es|
  {
    var e := es[i];
    Selected(sel, e) ==>
      var c := sel[e.id.base];
      var k := Seen(sel, es, e.id.base, i);
      k < |c.choices| && LineLabel(e.id.fields, c.arg) == Some(c.choices[k].line)
  }

  predicate Joined(sel: Selectors, es: seq<Event>) {
    && (forall i :: 0 <= i < |es| ==> Proven(sel, es, i))
    && (forall k <- sel :: Seen(sel, es, k, |es|) == |sel[k].choices|)
  }

  function JoinedEvent(sel: Selectors, es: seq<Event>, i: nat): (r: Event)
    requires i < |es| && Proven(sel, es, i)
    ensures r.outcome == es[i].outcome && r.caseIndex == es[i].caseIndex && r.id.base == es[i].id.base
  {
    var e := es[i];
    if !Selected(sel, e) then e else
    var c := sel[e.id.base];
    var k := Seen(sel, es, e.id.base, i);
    e.(id := e.id.(fields := Relabel(e.id.fields, c.arg, Selector(e.id.base, c.choices[k].dump, k))))
  }

  function JoinedEvents(sel: Selectors, es: seq<Event>): (r: seq<Event>)
    requires Joined(sel, es)
    ensures |r| == |es| && forall i :: 0 <= i < |es| ==> r[i] == JoinedEvent(sel, es, i)
  {
    seq(|es|, i requires 0 <= i < |es| => JoinedEvent(sel, es, i))
  }

  // ---------------------------------------------------------------- the clock observations

  predicate Observes(e: Event) {
    e.id.fields != [] && e.id.fields[0].name == "observed"
  }

  predicate IsClock(e: Event) {
    e.id.base == CLOCK_ID
  }

  function Named(s: Source, name: string): seq<Class> {
    if s == [] then [] else (if s[0].name == name then [s[0]] else []) + Named(s[1..], name)
  }

  function NamedMethods(ms: seq<Method>, name: string): seq<Method> {
    if ms == [] then [] else (if ms[0].name == name then [ms[0]] else []) + NamedMethods(ms[1..], name)
  }

  /** The source still holds the one clock method and loop that the labels were bound to. */
  predicate ClockBound(s: Source) {
    var classes := Named(s, CLOCK_CLASS);
    && |classes| == 1
    && (var methods := NamedMethods(classes[0].methods, CLOCK_METHOD);
        && |methods| == 1
        && methods[0].digest == CLOCK_METHOD_SHA256
        && methods[0].topLoops == [CLOCK_LOOP_SHA256])
  }

  function ObservedAt(e: Event): Option<int> {
    if |e.id.fields| == 1 && e.id.fields[0].name == "observed" && e.id.fields[0].value.Time?
    then Some(e.id.fields[0].value.micros) else None
  }

  /** Three consecutive indices are all the clock events there are. */
  predicate OnlyClocks(es: seq<Event>, i: nat) {
    i + 2 < |es| && forall j :: 0 <= j < |es| ==> (IsClock(es[j]) <==> i <= j <= i + 2)
  }

  /** Events `i`, `i + 1`, `i + 2` are the clock test's two observations and its own outcome. */
  predicate ClockTriple(es: seq<Event>, i: nat)
    requires i + 2 < |es|
  {
    && OnlyClocks(es, i)
    && (forall j :: i <= j <= i + 2 ==> es[j].caseIndex == Some(CLOCK_CASE))
    && es[i].outcome == SubTest("success") && es[i + 1].outcome == SubTest("success")
    && es[i + 2].outcome == Plain("success") && es[i + 2].id.fields == []
    && ObservedAt(es[i]).Some? && ObservedAt(es[i + 1]).Some?
    && ObservedAt(es[i + 1]).value - ObservedAt(es[i]).value == SECOND
  }

  predicate NoStrayClock(es: seq<Event>) {
    forall e <- es :: Observes(e) ==> IsClock(e)
  }

  function Stamp(e: Event, role: string): Event {
    e.(id := Id(CLOCK_ID, [Field("observed", Text(role))]))
  }

  /** Where the first clock event is; the length when there is none. */
  function FirstClock(es: seq<Event>): (i: nat)
    ensures i <= |es| && (forall j :: 0 <= j < i ==> !IsClock(es[j])) && (i < |es| ==> IsClock(es[i]))
  {
    if es == [] || IsClock(es[0]) then 0 else 1 + FirstClock(es[1..])
  }

  predicate ClockAccepted(s: Source, es: seq<Event>) {
    && NoStrayClock(es)
    && (var i := FirstClock(es);
        if Named(s, CLOCK_CLASS) == [] then i == |es|
        else ClockBound(s) && i + 2 < |es| && ClockTriple(es, i))
  }

  /** The trace with the two observations replaced by their roles. */
  function ClockResult(s: Source, es: seq<Event>): seq<Event>
    requires ClockAccepted(s, es)
  {
    if Named(s, CLOCK_CLASS) == [] then es
    else
      var i := FirstClock(es);
      es[i := Stamp(es[i], "deadline")][i + 1 := Stamp(es[i + 1], "deadline+1s")]
  }

  ghost predicate Accepted(s: Source, es: seq<Event>) {
    && ChannelsOk(Channels(s))
    && Joined(SelectorsOf(Channels(s)), es)
    && ClockAccepted(s, JoinedEvents(SelectorsOf(Channels(s)), es))
  }

  /** The canonical trace; none stands for every `ValueError`. */
  ghost function Canonical(s: Source, es: seq<Event>): Option<seq<Event>> {
    if Accepted(s, es) then Some(ClockResult(s, JoinedEvents(SelectorsOf(Channels(s)), es))) else None
  }

  // ---------------------------------------------------------------- the algorithm

  method ClockIndices(es: seq<Event>) returns (indices: seq<nat>)
    ensures forall k :: 0 <= k < |indices| ==> indices[k] < |es| && IsClock(es[indices[k]])
    ensures forall a, b :: 0 <= a < b < |indices| ==> indices[a] < indices[b]
    ensures forall j :: 0 <= j < |es| && IsClock(es[j]) ==> j in indices
  {
    indices := [];
    for i := 0 to |es|
      invariant forall k :: 0 <= k < |indices| ==> indices[k] < i && IsClock(es[indices[k]])
      invariant forall a, b :: 0 <= a < b < |indices| ==> indices[a] < indices[b]
      invariant forall j :: 0 <= j < i && IsClock(es[j]) ==> j in indices
    {
      if IsClock(es[i]) { indices := indices + [i]; }
    }
  }

  lemma {:induction false} ThreeIndices(es: seq<Event>, indices: seq<nat>)
    requires forall k :: 0 <= k < |indices| ==> indices[k] < |es| && IsClock(es[indices[k]])
    requires forall a, b :: 0 <= a < b < |indices| ==> indices[a] < indices[b]
    requires forall j :: 0 <= j < |es| && IsClock(es[j]) ==> j in indices
    ensures indices != [] ==> FirstClock(es) == indices[0]
    ensures indices == [] <==> FirstClock(es) == |es|
    ensures |indices| == 3 && indices[2] == indices[0] + 2 <==> OnlyClocks(es, FirstClock(es))
  {
    var i := FirstClock(es);
    if i < |es| {
      var k :| 0 <= k < |indices| && indices[k] == i;
      assert indices[0] <= i && IsClock(es[indices[0]]);
    }
    if OnlyClocks(es, i) {
      assert IsClock(es[i + 1]) && i + 1 in indices;
      assert IsClock(es[i + 2]) && i + 2 in indices;
      var a :| 0 <= a < |indices| && indices[a] == i + 1;
      var b :| 0 <= b < |indices| && indices[b] == i + 2;
      assert indices[0] == i && a >= 1 && b > a;
      if b > 2 || a > 1 || |indices| > 3 {
        var last := |indices| - 1;
        assert IsClock(es[indices[last]]) && indices[last] <= i + 2;
        Spread(indices, last);
      }
    } else if |indices| == 3 && indices[2] == indices[0] + 2 {
      assert indices[1] == i + 1;
      forall j | 0 <= j < |es| ensures IsClock(es[j]) <==> i <= j <= i + 2 {
        if IsClock(es[j]) {
          var k :| 0 <= k < 3 && indices[k] == j;
        } else {
          assert j != indices[0] && j != indices[1] && j != indices[2];
        }
      }
    }
  }

  lemma {:induction false} Spread(xs: seq<nat>, n: nat)
    requires n < |xs| && forall a, b :: 0 <= a < b < |xs| ==> xs[a] < xs[b]
    ensures xs[0] + n <= xs[n]
  {
    if n > 0 {
      Spread(xs, n - 1);
    }
  }

  /** `canonical_clock_events`: the indices of the clock events are collected, checked, and two
      entries of a copy are overwritten. */
  method CanonicalClock(s: Source, es: seq<Event>) returns (r: Option<seq<Event>>)
    ensures r == if ClockAccepted(s, es) then Some(ClockResult(s, es)) else None
  {
    var indices := ClockIndices(es);
    ThreeIndices(es, indices);
    if !NoStrayClock(es) { return None; }
    if Named(s, CLOCK_CLASS) == [] {
      if indices != [] { return None; }
      return Some(es);
    }
    if !ClockBound(s) { return None; }
    if |indices| != 3 || indices[2] != indices[0] + 2 { return None; }
    var i := indices[0];
    if (exists j | i <= j <= i + 2 :: es[j].caseIndex != Some(CLOCK_CASE))
       || es[i].outcome != SubTest("success") || es[i + 1].outcome != SubTest("success")
       || es[i + 2].outcome != Plain("success") || es[i + 2].id.fields != []
    {
      return None;
    }
    var first, second := ObservedAt(es[i]), ObservedAt(es[i + 1]);
    if first.None? || second.None? || second.value - first.value != SECOND { return None; }
    var result := es;
    result := result[i := Stamp(es[i], "deadline")];
    result := result[i + 1 := Stamp(es[i + 1], "deadline+1s")];
    r := Some(result);
  }

  function Position(positions: map<string, nat>, base: string): nat {
    if base in positions then positions[base] else 0
  }

  /** `positions` knows how many subtests of each parent were matched among the first `n` events. */
  ghost predicate Tracks(sel: Selectors, es: seq<Event>, n: nat, positions: map<string, nat>)
    requires n <= |es|
  {
    forall k <- sel :: Position(positions, k) == Seen(sel, es, k, n)
  }

  /** One iteration of the loop of `canonical_events`: the rewritten item, or none. */
  method JoinOne(sel: Selectors, es: seq<Event>, i: nat, before: map<string, nat>)
    returns (item: Option<Event>, positions: map<string, nat>)
    requires i < |es| && Tracks(sel, es, i, before)
    ensures item == if Proven(sel, es, i) then Some(JoinedEvent(sel, es, i)) else None
    ensures item.Some? ==> Tracks(sel, es, i + 1, positions)
  {
    var e := es[i];
    positions := before;
    if !Selected(sel, e) { return Some(e), positions; }
    var base := e.id.base;
    var c := sel[base];
    var offset := Position(positions, base);
    if offset >= |c.choices| { return None, positions; }
    var line := LineLabel(e.id.fields, c.arg);
    if line != Some(c.choices[offset].line) { return None, positions; }
    var chosen := Selector(base, c.choices[offset].dump, offset);
    positions := positions[base := offset + 1];
    item := Some(e.(id := e.id.(fields := Relabel(e.id.fields, c.arg, chosen))));
  }

  /** `canonical_events`: one pass that keeps, per parent, how many subtests it has matched. */
  method Canonicalise(s: Source, es: seq<Event>) returns (r: Option<seq<Event>>)
    ensures r == Canonical(s, es)
  {
    var found := FindSelectors(s);
    if found.None? { return None; }
    var sel := found.value;
    var positions: map<string, nat> := map[];
    var result: seq<Event> := [];
    for i := 0 to |es|
      invariant Tracks(sel, es, i, positions)
      invariant |result| == i
      invariant forall j :: 0 <= j < i ==> Proven(sel, es, j) && result[j] == JoinedEvent(sel, es, j)
    {
      var item;
      item, positions := JoinOne(sel, es, i, positions);
      if item.None? { return None; }
      result := result + [item.value];
    }
    if exists k <- sel :: Position(positions, k) != |sel[k].choices| { return None; }
    assert Joined(sel, es) && result == JoinedEvents(sel, es);
    r := CanonicalClock(s, result);
  }
}
