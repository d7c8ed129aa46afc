/** Usage read from a line-delimited transcript, and how it adds up over the parts of a transcript. */
module Transcripts {
  import opened Wrappers
  import opened JsonWalk

  // ---------------------------------------------------------------- lines

  predicate IsBreak(c: char) {
    c in {'\n', '\r', '\U{0B}', '\U{0C}', '\U{1C}', '\U{1D}', '\U{1E}', '\U{85}', '\U{2028}', '\U{2029}'}
  }

  predicate IsSpace(c: char) {
    IsBreak(c) || '\U{2000}' <= c <= '\U{200A}'
    || c in {' ', '\t', '\U{1F}', '\U{A0}', '\U{1680}', '\U{202F}', '\U{205F}', '\U{3000}'}
  }

  function FirstBreak(text: string): (e: nat)
    ensures e <= |text| && (forall k :: 0 <= k < e ==> !IsBreak(text[k])) && (e < |text| ==> IsBreak(text[e]))
  {
    if text == "" || IsBreak(text[0]) then 0 else 1 + FirstBreak(text[1..])
  }

  /** Where the line after the break at `e` starts: a carriage return takes its line feed along. */
  function AfterBreak(text: string, e: nat): (k: nat)
    requires e < |text|
    ensures e < k <= |text|
  {
    if text[e] == '\r' && e + 1 < |text| && text[e + 1] == '\n' then e + 2 else e + 1
  }

  function SplitLines(text: string): seq<string> {
    if text == "" then []
    else
      var e := FirstBreak(text);
      if e == |text| then [text] else [text[..e]] + SplitLines(text[AfterBreak(text, e)..])
  }

  function StripLeft(s: string): string {
    if s != "" && IsSpace(s[0]) then StripLeft(s[1..]) else s
  }

  function StripRight(s: string): string {
    if s != "" && IsSpace(s[|s| - 1]) then StripRight(s[..|s| - 1]) else s
  }

  function Strip(s: string): string {
    StripRight(StripLeft(s))
  }

  /** The decoder of one line: a value, or nothing when the line is not JSON. */
  type Decoder = string -> Option<Json>

  /** The object on one line, if there is one. */
  function OnLine(line: string, decode: Decoder): seq<Json> {
    var text := Strip(line);
    if text == "" then []
    else if decode(text).Some? && decode(text).value.Obj? then [decode(text).value]
    else []
  }

  function Objects(lines: seq<string>, decode: Decoder): seq<Json> {
    if lines == [] then [] else Objects(lines[..|lines| - 1], decode) + OnLine(lines[|lines| - 1], decode)
  }

  /** `parse_jsonl_objects`. */
  method ParseJsonlObjects(text: string, decode: Decoder) returns (events: seq<Json>)
    ensures events == Objects(SplitLines(text), decode)
  {
    events := [];
    var lines := SplitLines(text);
    for k := 0 to |lines|
      invariant events == Objects(lines[..k], decode)
    {
      assert lines[..k + 1][..k] == lines[..k];
      var stripped := Strip(lines[k]);
      if stripped == "" {
        continue;
      }
      var value := decode(stripped);
      if value.None? {
        continue;
      }
      if value.value.Obj? {
        events := events + [value.value];
      }
    }
    assert lines[..|lines|] == lines;
  }

  lemma InitOfConcat<T>(a: seq<T>, b: seq<T>)
    requires b != []
    ensures (a + b)[..|a + b| - 1] == a + b[..|b| - 1] && (a + b)[|a + b| - 1] == b[|b| - 1]
  {
  }

  lemma {:induction false} ObjectsConcat(a: seq<string>, b: seq<string>, decode: Decoder)
    ensures Objects(a + b, decode) == Objects(a, decode) + Objects(b, decode)
  {
    if b == [] {
      assert a + b == a;
    } else {
      InitOfConcat(a, b);
      ObjectsConcat(a, b[..|b| - 1], decode);
      Associate(Objects(a, decode), Objects(b[..|b| - 1], decode), OnLine(b[|b| - 1], decode));
    }
  }

  predicate EndsLine(text: string) {
    text == "" || IsBreak(text[|text| - 1])
  }

  lemma FirstBreakOf(text: string, e: nat)
    requires e < |text| && IsBreak(text[e]) && forall k :: 0 <= k < e ==> !IsBreak(text[k])
    ensures FirstBreak(text) == e
  {
  }

  lemma ObjectsOfFirst(line: string, rest: seq<string>, decode: Decoder)
    ensures Objects([line] + rest, decode) == OnLine(line, decode) + Objects(rest, decode)
  {
    ObjectsConcat([line], rest, decode);
    assert [line][..0] == [];
    assert Objects([], decode) == [];
  }

  lemma ObjectsStep(text: string, e: nat, decode: Decoder)
    requires e < |text| && FirstBreak(text) == e
    ensures Objects(SplitLines(text), decode)
            == OnLine(text[..e], decode) + Objects(SplitLines(text[AfterBreak(text, e)..]), decode)
  {
    ObjectsOfFirst(text[..e], SplitLines(text[AfterBreak(text, e)..]), decode);
  }

  lemma FirstBreakStays(a: string, b: string)
    requires FirstBreak(a) < |a|
    ensures FirstBreak(a + b) == FirstBreak(a) && (a + b)[..FirstBreak(a)] == a[..FirstBreak(a)]
  {
    FirstBreakOf(a + b, FirstBreak(a));
  }

  lemma BreakBefore(a: string)
    requires EndsLine(a) && a != ""
    ensures FirstBreak(a) < |a| && EndsLine(a[AfterBreak(a, FirstBreak(a))..])
  {
  }

  /** A transcript cut after any line break yields the same objects as its two parts, even when the
      cut falls inside a carriage return and line feed. */
  lemma {:induction false} ObjectsSplit(a: string, b: string, decode: Decoder)
    requires EndsLine(a)
    ensures Objects(SplitLines(a + b), decode) == Objects(SplitLines(a), decode) + Objects(SplitLines(b), decode)
    decreases |a|
  {
    if a == "" {
      assert a + b == b;
    } else {
      BreakBefore(a);
      var e := FirstBreak(a);
      if AfterBreak(a + b, e) == AfterBreak(a, e) {
        SplitOutside(a, b, AfterBreak(a, e), decode);
      } else {
        SplitInside(a, b, e, decode);
      }
      SplitFirst(a, b, e, decode);
    }
  }

  lemma SplitFirst(a: string, b: string, e: nat, decode: Decoder)
    requires e < |a| && e == FirstBreak(a)
    requires Objects(SplitLines((a + b)[AfterBreak(a + b, e)..]), decode)
             == Objects(SplitLines(a[AfterBreak(a, e)..]), decode) + Objects(SplitLines(b), decode)
    ensures Objects(SplitLines(a + b), decode) == Objects(SplitLines(a), decode) + Objects(SplitLines(b), decode)
  {
    FirstBreakStays(a, b);
    ObjectsStep(a, e, decode);
    ObjectsStep(a + b, e, decode);
    Associate(OnLine(a[..e], decode), Objects(SplitLines(a[AfterBreak(a, e)..]), decode), Objects(SplitLines(b), decode));
  }

  lemma {:induction false} SplitOutside(a: string, b: string, k: nat, decode: Decoder)
    requires 0 < k <= |a| && EndsLine(a[k..])
    ensures Objects(SplitLines((a + b)[k..]), decode) == Objects(SplitLines(a[k..]), decode) + Objects(SplitLines(b), decode)
    decreases |a|, 0
  {
    assert (a + b)[k..] == a[k..] + b;
    ObjectsSplit(a[k..], b, decode);
  }

  lemma SplitInside(a: string, b: string, e: nat, decode: Decoder)
    requires e < |a| && AfterBreak(a + b, e) != AfterBreak(a, e)
    ensures Objects(SplitLines((a + b)[AfterBreak(a + b, e)..]), decode)
            == Objects(SplitLines(a[AfterBreak(a, e)..]), decode) + Objects(SplitLines(b), decode)
  {
    assert e + 1 == |a| && b != "" && b[0] == '\n';
    assert (a + b)[e + 2..] == b[1..] && a[e + 1..] == "";
    ObjectsStep(b, 0, decode);
    assert OnLine(b[..0], decode) == [];
  }

  // ---------------------------------------------------------------- usage

  const SESSION_KEYS: set<string> := {"session_id", "sessionId", "conversation_id", "conversationId"}
  const USAGE_KEYS: set<string> := {"usage", "token_usage", "tokenUsage"}
  const COST_KEYS: set<string> := {"cost_usd", "costUsd", "costUSD", "cost"}
  const INPUT: seq<string> := ["inputTokens", "input_tokens", "prompt_tokens", "promptTokens"]
  const OUTPUT: seq<string> := ["outputTokens", "output_tokens", "completion_tokens", "completionTokens"]
  const TOTAL: seq<string> := ["billableTokens", "billable_tokens", "total_tokens", "totalTokens"]
  const CONTEXT: seq<string> := ["cumulativeContextBytes", "cumulative_context_bytes", "contextBytes", "context_bytes"]

  /** `first_present`: the first of the keys that the object has. */
  function FirstPresent(v: Json, keys: seq<string>): Json {
    if keys == [] || !v.Obj? then Null
    else if Get(v.fields, keys[0]).Some? then Get(v.fields, keys[0]).value
    else FirstPresent(v, keys[1..])
  }

  /** `int_from_any`: numbers with a fraction are cut towards zero. */
  function IntFromAny(v: Json): int {
    match v
    case Int(n) => n
    case Float(x) => if x >= 0.0 then x.Floor else -((-x).Floor)
    case _ => 0
  }

  function SumOf(usages: seq<Json>, keys: seq<string>): int {
    if usages == [] then 0
    else SumOf(usages[..|usages| - 1], keys) + IntFromAny(FirstPresent(usages[|usages| - 1], keys))
  }

  function SumCosts(costs: seq<real>): real {
    if costs == [] then 0.0 else SumCosts(costs[..|costs| - 1]) + costs[|costs| - 1]
  }

  datatype Summary = Summary(
    input: int, output: int, billable: int, contextBytes: Option<int>, contextSource: Option<string>, calls: int,
    wall: real, cost: Option<real>, session: Option<string>, events: nat)

  /** The sums before they are turned into a summary. */
  datatype Raw = Raw(
    input: int, output: int, total: int, context: int, calls: int, costs: seq<real>, session: Option<string>, events: nat)

  function RawOf(events: seq<Json>): Raw {
    var usages := FindDicts(Arr(events), USAGE_KEYS);
    Raw(SumOf(usages, INPUT), SumOf(usages, OUTPUT), SumOf(usages, TOTAL), SumOf(usages, CONTEXT),
        CountToolCalls(Arr(events)), FindNumbers(Arr(events), COST_KEYS), FindString(Arr(events), SESSION_KEYS), |events|)
  }

  function Billable(r: Raw): int {
    if r.total != 0 then r.total else r.input + r.output
  }

  /** The nearest whole number; halves go to the even one. */
  function Nearest(x: real): (n: int)
    ensures -0.5 <= x - n as real <= 0.5
  {
    var n := x.Floor;
    var rest := x - n as real;
    if rest < 0.5 || (rest == 0.5 && n % 2 == 0) then n else n + 1
  }

  /** Seconds rounded to milliseconds. */
  function Milliseconds(x: real): real {
    Nearest(x * 1000.0) as real / 1000.0
  }

  function Summarise(r: Raw, wall: real, source: string): Summary {
    Summary(r.input, r.output, Billable(r), if r.context != 0 then Some(r.context) else None,
            if r.context != 0 then Some(source) else None, r.calls, Milliseconds(wall),
            if r.costs != [] then Some(SumCosts(r.costs)) else None, r.session, r.events)
  }

  function Combine(a: Raw, b: Raw): Raw {
    Raw(a.input + b.input, a.output + b.output, a.total + b.total, a.context + b.context, a.calls + b.calls,
        a.costs + b.costs, if a.session.Some? then a.session else b.session, a.events + b.events)
  }

  method SumUsages(usages: seq<Json>, keys: seq<string>) returns (total: int)
    ensures total == SumOf(usages, keys)
  {
    total := 0;
    for k := 0 to |usages|
      invariant total == SumOf(usages[..k], keys)
    {
      assert usages[..k + 1][..k] == usages[..k];
      total := total + IntFromAny(FirstPresent(usages[k], keys));
    }
    assert usages[..|usages|] == usages;
  }

  lemma NextEvent(events: seq<Json>, k: nat)
    requires k < |events|
    ensures FindIn(Arr(events), USAGE_KEYS, IsDict, k + 1)
            == FindIn(Arr(events), USAGE_KEYS, IsDict, k) + FindDicts(events[k], USAGE_KEYS)
    ensures Numbers(FindIn(Arr(events), COST_KEYS, IsNumber, k + 1))
            == Numbers(FindIn(Arr(events), COST_KEYS, IsNumber, k)) + FindNumbers(events[k], COST_KEYS)
  {
    FindInList(events, USAGE_KEYS, IsDict, k);
    FindInList(events, COST_KEYS, IsNumber, k);
  }

  /** The loop of `parse_jsonl_usage` over the events. */
  method Collect(events: seq<Json>) returns (usages: seq<Json>, costs: seq<real>, session: Option<string>, calls: int)
    ensures usages == FindDicts(Arr(events), USAGE_KEYS)
    ensures costs == FindNumbers(Arr(events), COST_KEYS)
    ensures session == FindString(Arr(events), SESSION_KEYS)
    ensures calls == CountToolCalls(Arr(events))
  {
    usages, costs, session, calls := [], [], None, 0;
    for k := 0 to |events|
      invariant usages == FindIn(Arr(events), USAGE_KEYS, IsDict, k)
      invariant costs == Numbers(FindIn(Arr(events), COST_KEYS, IsNumber, k))
      invariant session == FindStringIn(Arr(events), SESSION_KEYS, k)
      invariant calls == CountToolCallsIn(Arr(events), k)
    {
      NextEvent(events, k);
      session := if session.Some? then session else FindString(events[k], SESSION_KEYS);
      usages := usages + FindDicts(events[k], USAGE_KEYS);
      costs := costs + FindNumbers(events[k], COST_KEYS);
      calls := calls + CountToolCalls(events[k]);
    }
  }

  /** `parse_jsonl_usage`. */
  method ParseJsonlUsage(text: string, wall: real, source: string, decode: Decoder) returns (u: Summary)
    ensures u == Summarise(RawOf(Objects(SplitLines(text), decode)), wall, source)
  {
    var events := ParseJsonlObjects(text, decode);
    var usages, costs, session, calls := Collect(events);
    var input := SumUsages(usages, INPUT);
    var output := SumUsages(usages, OUTPUT);
    var total := SumUsages(usages, TOTAL);
    var context := SumUsages(usages, CONTEXT);
    u := Summary(input, output, if total != 0 then total else input + output,
                 if context != 0 then Some(context) else None, if context != 0 then Some(source) else None,
                 calls, Milliseconds(wall), if costs != [] then Some(SumCosts(costs)) else None, session, |events|);
  }

  lemma {:induction false} SumOfConcat(a: seq<Json>, b: seq<Json>, keys: seq<string>)
    ensures SumOf(a + b, keys) == SumOf(a, keys) + SumOf(b, keys)
  {
    if b == [] {
      assert a + b == a;
    } else {
      SumOfConcat(a, b[..|b| - 1], keys);
      assert (a + b)[..|a + b| - 1] == a + b[..|b| - 1];
    }
  }

  lemma {:induction false} SumCostsConcat(a: seq<real>, b: seq<real>)
    ensures SumCosts(a + b) == SumCosts(a) + SumCosts(b)
  {
    if b == [] {
      assert a + b == a;
    } else {
      SumCostsConcat(a, b[..|b| - 1]);
      assert (a + b)[..|a + b| - 1] == a + b[..|b| - 1];
    }
  }

  lemma RawAdds(a: seq<Json>, b: seq<Json>)
    ensures RawOf(a + b) == Combine(RawOf(a), RawOf(b))
  {
    var ua, ub := FindDicts(Arr(a), USAGE_KEYS), FindDicts(Arr(b), USAGE_KEYS);
    FindConcat(a, b, USAGE_KEYS, IsDict);
    SumOfConcat(ua, ub, INPUT);
    SumOfConcat(ua, ub, OUTPUT);
    SumOfConcat(ua, ub, TOTAL);
    SumOfConcat(ua, ub, CONTEXT);
    CountConcat(a, b);
    FindNumbersConcat(a, b, COST_KEYS);
    FindStringConcat(a, b, SESSION_KEYS);
  }

  /** Input, output, total, context and cost sums, tool calls and events add up over any cut of a
      transcript after a line break; the session is the first one found. */
  lemma TranscriptAdds(a: string, b: string, decode: Decoder)
    requires EndsLine(a)
    ensures var whole, left, right := RawOf(Objects(SplitLines(a + b), decode)),
              RawOf(Objects(SplitLines(a), decode)), RawOf(Objects(SplitLines(b), decode));
            whole == Combine(left, right) && SumCosts(whole.costs) == SumCosts(left.costs) + SumCosts(right.costs)
  {
    ObjectsSplit(a, b, decode);
    RawAdds(Objects(SplitLines(a), decode), Objects(SplitLines(b), decode));
    SumCostsConcat(RawOf(Objects(SplitLines(a), decode)).costs, RawOf(Objects(SplitLines(b), decode)).costs);
  }

  // ---------------------------------------------------------------- billable tokens

  function RawOfText(text: string, decode: Decoder): Raw {
    RawOf(Objects(SplitLines(text), decode))
  }

  /** The billable tokens of a transcript. */
  function BillableOf(text: string, decode: Decoder): int {
    Billable(RawOfText(text, decode))
  }

  /** What the fallback drops when the parts are read together: the counts of a part without a total,
      when the other part has one, or of both parts, when their totals cancel. */
  function Dropped(a: Raw, b: Raw): int {
    if a.total == 0 && b.total == 0 then 0
    else if a.total == 0 then a.input + a.output
    else if b.total == 0 then b.input + b.output
    else if a.total + b.total == 0 then -(a.input + a.output + b.input + b.output)
    else 0
  }

  /** For any cut of a transcript after a line break, the billable tokens of the parts exceed those of the
      whole by exactly what the fallback drops; so they add up if and only if it drops nothing. */
  lemma BillableAddsExactly(a: string, b: string, decode: Decoder)
    requires EndsLine(a)
    ensures var dropped := Dropped(RawOfText(a, decode), RawOfText(b, decode));
            && BillableOf(a, decode) + BillableOf(b, decode) == BillableOf(a + b, decode) + dropped
            && (BillableOf(a + b, decode) == BillableOf(a, decode) + BillableOf(b, decode) <==> dropped == 0)
  {
    TranscriptAdds(a, b, decode);
  }

  /** An event that reports one usage count. */
  function OneCount(key: string, n: int): Json {
    Obj([Field("usage", Obj([Field(key, Int(n))]))])
  }

  lemma OneCountFound(key: string, n: int)
    ensures FindDicts(Arr([OneCount(key, n)]), USAGE_KEYS) == [Obj([Field(key, Int(n))])]
  {
    var usage := Obj([Field(key, Int(n))]);
    var event := OneCount(key, n);
    assert Find(Int(n), USAGE_KEYS, IsDict) == [];
    assert FindIn(usage, USAGE_KEYS, IsDict, 0) == [];
    assert Find(usage, USAGE_KEYS, IsDict) == [];
    assert FindIn(event, USAGE_KEYS, IsDict, 0) == [] && Hit(event, 0, USAGE_KEYS, IsDict);
    assert Find(event, USAGE_KEYS, IsDict) == [usage];
    FindInList([event], USAGE_KEYS, IsDict, 0);
    assert FindIn(Arr([event]), USAGE_KEYS, IsDict, 0) == [];
  }

  lemma OneCountSums(key: string, n: int, keys: seq<string>)
    ensures SumOf([Obj([Field(key, Int(n))])], keys) == if key in keys then n else 0
  {
    var usage := Obj([Field(key, Int(n))]);
    OneCountPresent(key, n, keys);
    assert [usage][..0] == [];
    assert SumOf([], keys) == 0;
  }

  lemma {:induction false} OneCountPresent(key: string, n: int, keys: seq<string>)
    ensures FirstPresent(Obj([Field(key, Int(n))]), keys) == if key in keys then Int(n) else Null
  {
    if keys != [] {
      assert [Field(key, Int(n))][1..] == [];
      assert Get([Field(key, Int(n))], keys[0]) == if key == keys[0] then Some(Int(n)) else None;
      OneCountPresent(key, n, keys[1..]);
    }
  }

  lemma CountKeys()
    ensures "inputTokens" in INPUT && "inputTokens" !in OUTPUT && "inputTokens" !in TOTAL
    ensures "total_tokens" !in INPUT && "total_tokens" !in OUTPUT && "total_tokens" in TOTAL
  {
    assert "inputTokens" == INPUT[0] && "total_tokens" == TOTAL[2];
    var i, t := "inputTokens", "total_tokens";
    assert i[0] == 'i' && t[0] == 't';
    assert forall k :: 0 <= k < 4 ==> INPUT[k][0] in {'i', 'p'};
    assert forall k :: 0 <= k < 4 ==> OUTPUT[k][0] in {'o', 'c'};
    assert forall k :: 0 <= k < 4 ==> TOTAL[k][0] in {'b', 't'};
  }

  lemma OneCountBilled(key: string, n: int)
    requires key == "inputTokens" || key == "total_tokens"
    ensures var r := RawOf([OneCount(key, n)]);
            && r.input + r.output == (if key == "inputTokens" then n else 0)
            && r.total == (if key == "inputTokens" then 0 else n)
  {
    OneCountFound(key, n);
    CountKeys();
    OneCountSums(key, n, INPUT);
    OneCountSums(key, n, OUTPUT);
    OneCountSums(key, n, TOTAL);
  }

  /** One line of text: not empty, without a break, and without space at either end. */
  predicate IsLine(line: string) {
    && line != "" && !IsSpace(line[0]) && !IsSpace(line[|line| - 1])
    && forall k :: 0 <= k < |line| ==> !IsBreak(line[k])
  }

  lemma LineObjects(line: string, decode: Decoder, event: Json)
    requires IsLine(line) && decode(line) == Some(event) && event.Obj?
    ensures Objects(SplitLines(line + "\n"), decode) == [event]
  {
    var text, e := line + "\n", |line|;
    assert text[e] == '\n' && forall k :: 0 <= k < e ==> text[k] == line[k];
    FirstBreakOf(text, e);
    assert text[..e] == line && text[AfterBreak(text, e)..] == "";
    ObjectsStep(text, e, decode);
    assert Strip(line) == line;
    assert OnLine(line, decode) == [event];
    assert SplitLines("") == [] && Objects([], decode) == [];
  }

  lemma LineRaw(line: string, decode: Decoder, key: string, n: int)
    requires IsLine(line) && decode(line) == Some(OneCount(key, n)) && (key == "inputTokens" || key == "total_tokens")
    ensures EndsLine(line + "\n")
    ensures var r := RawOfText(line + "\n", decode);
            && r.input + r.output == (if key == "inputTokens" then n else 0)
            && r.total == (if key == "inputTokens" then 0 else n)
  {
    LineObjects(line, decode, OneCount(key, n));
    OneCountBilled(key, n);
  }

  const INPUT_LINE := "{\"usage\": {\"inputTokens\": 5}}"
  const TOTAL_LINE := "{\"usage\": {\"total_tokens\": 7}}"

  lemma TheyAreLines()
    ensures IsLine(INPUT_LINE) && IsLine(TOTAL_LINE)
  {
  }

  /** A transcript on which billable tokens do not add up: five input tokens on the first line, a total of
      seven on the second; read together, the five are not billed. */
  lemma BillableCanDiffer(a: string, b: string, decode: Decoder)
    requires a == INPUT_LINE + "\n" && b == TOTAL_LINE + "\n"
    requires decode(INPUT_LINE) == Some(OneCount("inputTokens", 5))
    requires decode(TOTAL_LINE) == Some(OneCount("total_tokens", 7))
    ensures EndsLine(a) && BillableOf(a, decode) == 5 && BillableOf(b, decode) == 7 && BillableOf(a + b, decode) == 7
  {
    TheyAreLines();
    LineRaw(INPUT_LINE, decode, "inputTokens", 5);
    LineRaw(TOTAL_LINE, decode, "total_tokens", 7);
    BillableAddsExactly(a, b, decode);
  }
}
