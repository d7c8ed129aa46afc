/** The scanner that picks JSON objects out of arbitrary text. */
module JsonScan {
  import opened Wrappers
  import opened JsonWalk

  /** The decoder, tried on the text from some brace on: a value and how many characters it took. */
  datatype Decoded = Decoded(value: Json, length: nat)

  type RawDecoder = string -> Option<Decoded>

  /** A decoded part of the text; it takes one character at least. */
  datatype Span = Span(start: nat, stop: nat, value: Json)

  /** The span that starts at position `q`, if there is a brace there and it decodes. */
  function SpanAt(text: string, raw: RawDecoder, q: nat): Option<Span>
    requires q < |text|
  {
    if text[q] != '{' || raw(text[q..]).None? then None
    else
      var d := raw(text[q..]).value;
      Some(Span(q, q + if d.length > 1 then d.length else 1, d.value))
  }

  /** Position by position, the span that could start there. */
  function Candidates(text: string, raw: RawDecoder): (c: seq<Option<Span>>)
    ensures |c| == |text|
    ensures forall q :: 0 <= q < |text| ==> c[q] == SpanAt(text, raw, q)
  {
    seq(|text|, q requires 0 <= q < |text| => SpanAt(text, raw, q))
  }

  ghost predicate Decodes(c: seq<Option<Span>>, q: nat) {
    q < |c| && c[q].Some?
  }

  ghost predicate IsSpan(c: seq<Option<Span>>, s: Span) {
    s.start < |c| && c[s.start] == Some(s) && s.start < s.stop
  }

  ghost predicate Inside(spans: seq<Span>, q: nat) {
    exists k :: 0 <= k < |spans| && spans[k].start <= q < spans[k].stop
  }

  ghost predicate Disjoint(spans: seq<Span>) {
    forall i, j :: 0 <= i < j < |spans| ==> spans[i].stop <= spans[j].start
  }

  /** Spans in increasing order, disjoint, and no decodable brace before `upTo` outside of them: so each
      span starts at the leftmost decodable brace that the earlier ones leave. */
  ghost predicate ScansTo(c: seq<Option<Span>>, spans: seq<Span>, upTo: nat) {
    && Disjoint(spans)
    && (forall k :: 0 <= k < |spans| ==> IsSpan(c, spans[k]))
    && (forall q: nat :: q < upTo && Decodes(c, q) ==> Inside(spans, q))
  }

  ghost predicate Scans(c: seq<Option<Span>>, spans: seq<Span>) {
    ScansTo(c, spans, |c|)
  }

  /** The objects among the decoded values. */
  function Dicts(spans: seq<Span>): seq<Json> {
    if spans == [] then []
    else Dicts(spans[..|spans| - 1]) + (if spans[|spans| - 1].value.Obj? then [spans[|spans| - 1].value] else [])
  }

  /** `text.find("{", index)`. */
  function FindBrace(text: string, index: nat): (b: Option<nat>)
    ensures b.Some? ==> index <= b.value < |text| && text[b.value] == '{'
    ensures forall q :: index <= q < |text| && (b.Some? ==> q < b.value) ==> text[q] != '{'
    decreases |text| - index
  {
    if index >= |text| then None else if text[index] == '{' then Some(index) else FindBrace(text, index + 1)
  }

  lemma SkipTo(c: seq<Option<Span>>, spans: seq<Span>, from: nat, to: nat)
    requires ScansTo(c, spans, from)
    requires forall q :: from <= q < to ==> !Decodes(c, q)
    ensures ScansTo(c, spans, to)
  {
  }

  lemma AddSpan(c: seq<Option<Span>>, spans: seq<Span>, s: Span)
    requires ScansTo(c, spans, s.start) && IsSpan(c, s)
    requires forall k :: 0 <= k < |spans| ==> spans[k].stop <= s.start
    ensures ScansTo(c, spans + [s], s.stop)
    ensures Dicts(spans + [s]) == Dicts(spans) + if s.value.Obj? then [s.value] else []
  {
    var more := spans + [s];
    assert more[..|spans|] == spans;
    forall q: nat | q < s.stop && Decodes(c, q) ensures Inside(more, q) {
      if q < s.start {
        var k :| 0 <= k < |spans| && spans[k].start <= q < spans[k].stop;
        assert more[k] == spans[k];
      } else {
        assert more[|spans|] == s;
      }
    }
  }

  /** What the scanner knows when it stands at `index`. */
  ghost predicate ScannedTo(text: string, raw: RawDecoder, spans: seq<Span>, events: seq<Json>, index: nat) {
    && ScansTo(Candidates(text, raw), spans, index)
    && events == Dicts(spans)
    && forall k :: 0 <= k < |spans| ==> spans[k].stop <= index
  }

  lemma SkipNoise(text: string, raw: RawDecoder, spans: seq<Span>, events: seq<Json>, from: nat, to: nat)
    requires ScannedTo(text, raw, spans, events, from) && from <= to <= |text|
    requires forall q :: from <= q < to ==> text[q] != '{'
    ensures ScannedTo(text, raw, spans, events, to)
  {
    SkipTo(Candidates(text, raw), spans, from, to);
  }

  /** A brace that did not decode. */
  lemma SkipBrace(text: string, raw: RawDecoder, spans: seq<Span>, events: seq<Json>, q: nat)
    requires ScannedTo(text, raw, spans, events, q) && q < |text| && raw(text[q..]).None?
    ensures ScannedTo(text, raw, spans, events, q + 1)
  {
    SkipTo(Candidates(text, raw), spans, q, q + 1);
  }

  /** A brace that decoded. */
  lemma AddDecoded(text: string, raw: RawDecoder, spans: seq<Span>, events: seq<Json>, s: Span)
    requires ScannedTo(text, raw, spans, events, s.start)
    requires s.start < |text| && SpanAt(text, raw, s.start) == Some(s)
    ensures ScannedTo(text, raw, spans + [s], if s.value.Obj? then events + [s.value] else events, s.stop)
  {
    AddSpan(Candidates(text, raw), spans, s);
  }

  /** At the end of the text the scan is complete, and there is no other. */
  lemma ScannedAll(text: string, raw: RawDecoder, spans: seq<Span>, events: seq<Json>, index: nat)
    requires ScannedTo(text, raw, spans, events, index) && index >= |text|
    ensures exists spans :: Scans(Candidates(text, raw), spans)
    ensures forall spans :: Scans(Candidates(text, raw), spans) ==> events == Dicts(spans)
  {
    var c := Candidates(text, raw);
    assert Scans(c, spans);
    forall other | Scans(c, other) ensures events == Dicts(other) {
      ScanIsUnique(c, spans, other);
    }
  }

  /** `parse_json_objects`: it ends on every text, whatever the decoder answers; there is a scan of the
      text, and the events are its objects. */
  method ParseJsonObjects(text: string, raw: RawDecoder) returns (events: seq<Json>)
    ensures exists spans :: Scans(Candidates(text, raw), spans)
    ensures forall spans :: Scans(Candidates(text, raw), spans) ==> events == Dicts(spans)
  {
    events := [];
    ghost var spans := [];
    var index := 0;
    while index < |text|
      invariant ScannedTo(text, raw, spans, events, index)
      decreases |text| - index
    {
      var brace := FindBrace(text, index);
      if brace.None? {
        SkipNoise(text, raw, spans, events, index, |text|);
        index := |text|;
        break;
      }
      var start := brace.value;
      SkipNoise(text, raw, spans, events, index, start);
      var decoded := raw(text[start..]);
      if decoded.None? {
        SkipBrace(text, raw, spans, events, start);
        index := start + 1;
        continue;
      }
      var d := decoded.value;
      index := start + if d.length > 1 then d.length else 1;
      AddDecoded(text, raw, spans, events, Span(start, index, d.value));
      if d.value.Obj? {
        events := events + [d.value];
      }
      spans := spans + [Span(start, index, d.value)];
    }
    ScannedAll(text, raw, spans, events, index);
  }

  // ---------------------------------------------------------------- there is only one scan

  ghost predicate AgreeTo(a: seq<Span>, b: seq<Span>, k: nat) {
    k <= |a| && k <= |b| && forall i :: 0 <= i < k ==> a[i] == b[i]
  }

  lemma NextStartsNoLater(c: seq<Option<Span>>, a: seq<Span>, b: seq<Span>, k: nat)
    requires Scans(c, a) && Scans(c, b)
    requires AgreeTo(a, b, k) && k < |a|
    ensures k < |b| && b[k].start <= a[k].start
  {
    var q := a[k].start;
    assert IsSpan(c, a[k]);
    assert Inside(b, q);
    var j :| 0 <= j < |b| && b[j].start <= q < b[j].stop;
    assert forall i :: 0 <= i < k ==> b[i].stop <= q;
    assert k < j ==> IsSpan(c, b[k]);
  }

  lemma SameStartSameSpan(c: seq<Option<Span>>, s: Span, t: Span)
    requires IsSpan(c, s) && IsSpan(c, t) && s.start == t.start
    ensures s == t
  {
  }

  lemma {:induction false} ScanIsUniqueFrom(c: seq<Option<Span>>, a: seq<Span>, b: seq<Span>, k: nat)
    requires Scans(c, a) && Scans(c, b)
    requires AgreeTo(a, b, k)
    ensures |a| == |b| && AgreeTo(a, b, |a|)
    decreases |a| - k
  {
    if k < |b| {
      NextStartsNoLater(c, b, a, k);
    }
    if k < |a| {
      NextStartsNoLater(c, a, b, k);
      SameStartSameSpan(c, a[k], b[k]);
      ScanIsUniqueFrom(c, a, b, k + 1);
    }
  }

  /** The text and the decoder determine the spans. */
  lemma ScanIsUnique(c: seq<Option<Span>>, a: seq<Span>, b: seq<Span>)
    requires Scans(c, a) && Scans(c, b)
    ensures a == b
  {
    ScanIsUniqueFrom(c, a, b, 0);
  }

  // ---------------------------------------------------------------- printed objects are recovered

  /** Some text, then a printed object. */
  datatype Part = Part(noise: string, printed: Json)

  type Printer = Json -> string

  function Printed(parts: seq<Part>, printer: Printer): string {
    if parts == [] then ""
    else
      var last := parts[|parts| - 1];
      Printed(parts[..|parts| - 1], printer) + last.noise + printer(last.printed)
  }

  /** Where the printed objects are. */
  function Places(parts: seq<Part>, printer: Printer): seq<Span> {
    if parts == [] then [] else Places(parts[..|parts| - 1], printer) + [LastPlace(parts, printer)]
  }

  function ObjectsOf(parts: seq<Part>): (vs: seq<Json>)
    ensures |vs| == |parts| && forall k :: 0 <= k < |parts| ==> vs[k] == parts[k].printed
  {
    seq(|parts|, k requires 0 <= k < |parts| => parts[k].printed)
  }

  /** The decoder takes back exactly what was printed, whatever follows, and objects start with a brace. */
  ghost predicate Inverts(raw: RawDecoder, printer: Printer, v: Json) {
    && printer(v) != "" && printer(v)[0] == '{'
    && forall rest :: raw(printer(v) + rest) == Some(Decoded(v, |printer(v)|))
  }

  ghost predicate AllInverted(raw: RawDecoder, printer: Printer, parts: seq<Part>) {
    forall k :: 0 <= k < |parts| ==> parts[k].printed.Obj? && Inverts(raw, printer, parts[k].printed)
  }

  ghost predicate Fits(spans: seq<Span>, c: seq<Option<Span>>, bound: nat) {
    Disjoint(spans) && forall k :: 0 <= k < |spans| ==> IsSpan(c, spans[k]) && spans[k].stop <= bound
  }

  ghost predicate PlacesHold(parts: seq<Part>, printer: Printer, c: seq<Option<Span>>) {
    && Fits(Places(parts, printer), c, |Printed(parts, printer)|)
    && Dicts(Places(parts, printer)) == ObjectsOf(parts)
  }

  lemma PlaceIsSpan(text: string, before: string, v: Json, rest: string, raw: RawDecoder, printer: Printer)
    requires Inverts(raw, printer, v) && text == before + (printer(v) + rest)
    ensures IsSpan(Candidates(text, raw), Span(|before|, |before| + |printer(v)|, v))
  {
    assert text[|before|..] == printer(v) + rest;
    assert text[|before|] == printer(v)[0];
  }

  lemma TextsAgree(a: string, b: string, c: string, rest: string)
    ensures ((a + b) + c) + rest == a + (b + c + rest)
    ensures ((a + b) + c) + rest == (a + b) + (c + rest)
  {
  }

  /** Where the last printed object stands. */
  function LastPlace(parts: seq<Part>, printer: Printer): Span
    requires parts != []
  {
    var init, last := parts[..|parts| - 1], parts[|parts| - 1];
    var start := |Printed(init, printer)| + |last.noise|;
    Span(start, start + |printer(last.printed)|, last.printed)
  }

  lemma {:induction false} PlacesAreSpans(parts: seq<Part>, raw: RawDecoder, printer: Printer, rest: string)
    requires AllInverted(raw, printer, parts)
    ensures PlacesHold(parts, printer, Candidates(Printed(parts, printer) + rest, raw))
  {
    if parts != [] {
      var init, last := parts[..|parts| - 1], parts[|parts| - 1];
      PlacesAreSpans(init, raw, printer, last.noise + printer(last.printed) + rest);
      TextsAgree(Printed(init, printer), last.noise, printer(last.printed), rest);
      LastPlaceIsSpan(parts, raw, printer, rest);
      PlacesGrow(parts, printer, Candidates(Printed(parts, printer) + rest, raw));
    }
  }

  lemma LastPlaceIsSpan(parts: seq<Part>, raw: RawDecoder, printer: Printer, rest: string)
    requires parts != [] && Inverts(raw, printer, parts[|parts| - 1].printed)
    ensures IsSpan(Candidates(Printed(parts, printer) + rest, raw), LastPlace(parts, printer))
  {
    var init, last := parts[..|parts| - 1], parts[|parts| - 1];
    TextsAgree(Printed(init, printer), last.noise, printer(last.printed), rest);
    PlaceIsSpan(Printed(parts, printer) + rest, Printed(init, printer) + last.noise, last.printed, rest, raw, printer);
  }

  lemma PlacesGrow(parts: seq<Part>, printer: Printer, c: seq<Option<Span>>)
    requires parts != [] && parts[|parts| - 1].printed.Obj?
    requires PlacesHold(parts[..|parts| - 1], printer, c)
    requires IsSpan(c, LastPlace(parts, printer))
    ensures PlacesHold(parts, printer, c)
  {
    var init := parts[..|parts| - 1];
    AddPlace(Places(init, printer), LastPlace(parts, printer), c, |Printed(init, printer)|);
    LastObject(parts);
  }

  lemma LastObject(parts: seq<Part>)
    requires parts != []
    ensures ObjectsOf(parts) == ObjectsOf(parts[..|parts| - 1]) + [parts[|parts| - 1].printed]
  {
  }

  lemma AddPlace(spans: seq<Span>, place: Span, c: seq<Option<Span>>, bound: nat)
    requires Fits(spans, c, bound) && bound <= place.start && IsSpan(c, place) && place.value.Obj?
    ensures Fits(spans + [place], c, place.stop)
    ensures Dicts(spans + [place]) == Dicts(spans) + [place.value]
  {
    assert (spans + [place])[..|spans|] == spans;
  }

  /** Whatever stands between and after printed objects, as long as no brace of it decodes where it
      stands, the scan recovers exactly the printed objects, in order. */
  lemma PrintedObjectsAreRecovered(
      parts: seq<Part>, tail: string, raw: RawDecoder, printer: Printer, spans: seq<Span>)
    requires AllInverted(raw, printer, parts)
    requires Scans(Candidates(Printed(parts, printer) + tail, raw), spans)
    requires forall q: nat :: Decodes(Candidates(Printed(parts, printer) + tail, raw), q) ==> Inside(Places(parts, printer), q)
    ensures Dicts(spans) == ObjectsOf(parts)
  {
    PlacesAreSpans(parts, raw, printer, tail);
    ScanIsUnique(Candidates(Printed(parts, printer) + tail, raw), spans, Places(parts, printer));
  }

  predicate BraceFree(s: string) {
    forall k :: 0 <= k < |s| ==> s[k] != '{'
  }

  lemma {:induction false} BracesAreInside(parts: seq<Part>, printer: Printer, q: nat)
    requires forall k :: 0 <= k < |parts| ==> BraceFree(parts[k].noise)
    requires q < |Printed(parts, printer)| && Printed(parts, printer)[q] == '{'
    ensures Inside(Places(parts, printer), q)
  {
    var init, last := parts[..|parts| - 1], parts[|parts| - 1];
    var spans := Places(parts, printer);
    if q < |Printed(init, printer)| {
      BracesAreInside(init, printer, q);
      var k :| 0 <= k < |Places(init, printer)| && Places(init, printer)[k].start <= q < Places(init, printer)[k].stop;
      assert spans[k] == Places(init, printer)[k];
    } else {
      assert BraceFree(last.noise);
      assert spans[|spans| - 1].start <= q < spans[|spans| - 1].stop;
    }
  }

  lemma DecodesAtBrace(text: string, raw: RawDecoder, q: nat)
    requires Decodes(Candidates(text, raw), q)
    ensures q < |text| && text[q] == '{'
  {
    assert Candidates(text, raw)[q] == SpanAt(text, raw, q);
  }

  lemma BraceIsBeforeTail(shown: string, tail: string, q: nat)
    requires BraceFree(tail) && q < |shown + tail| && (shown + tail)[q] == '{'
    ensures q < |shown| && shown[q] == '{'
  {
    assert forall k :: |shown| <= k < |shown + tail| ==> (shown + tail)[k] == tail[k - |shown|];
  }

  /** In particular noise without any opening brace never hides or forges an object. */
  lemma BraceFreeNoiseIsHarmless(
      parts: seq<Part>, tail: string, raw: RawDecoder, printer: Printer, spans: seq<Span>)
    requires AllInverted(raw, printer, parts)
    requires BraceFree(tail) && forall k :: 0 <= k < |parts| ==> BraceFree(parts[k].noise)
    requires Scans(Candidates(Printed(parts, printer) + tail, raw), spans)
    ensures Dicts(spans) == ObjectsOf(parts)
  {
    var shown := Printed(parts, printer);
    forall q: nat | Decodes(Candidates(shown + tail, raw), q) ensures Inside(Places(parts, printer), q) {
      DecodesAtBrace(shown + tail, raw, q);
      BraceIsBeforeTail(shown, tail, q);
      BracesAreInside(parts, printer, q);
    }
    PrintedObjectsAreRecovered(parts, tail, raw, printer, spans);
  }
}
