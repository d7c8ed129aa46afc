/** Recorded texts of a whole trace: rewritten or refused exactly as their fields say. */
module LabelTraces {
  import opened Wrappers
  import opened CanonicalEvents
  import opened LabelText

  /** An event as it is recorded, with the text of its id. */
  datatype TextEvent = TextEvent(text: string, outcome: Outcome, caseIndex: Option<nat>)

  // ---------------------------------------------------------------- specification

  predicate SelectedText(sel: Selectors, t: TextEvent) {
    BaseOf(t.text) in sel && t.outcome.SubTest?
  }

  /** How many of the first `n` texts are selected subtests of `base`. */
  function SeenTexts(sel: Selectors, ts: seq<TextEvent>, base: string, n: nat): nat
    requires n <= |ts|
  {
    if n == 0 then 0
    else SeenTexts(sel, ts, base, n - 1) + if SelectedText(sel, ts[n - 1]) && BaseOf(ts[n - 1].text) == base then 1 else 0
  }

  /** What becomes of the `i`th text. */
  function Rewritten(sel: Selectors, ts: seq<TextEvent>, i: nat, digest: Digest): Option<string>
    requires i < |ts|
  {
    RewriteText(sel, SeenTexts(sel, ts, BaseOf(ts[i].text), i), ts[i].text, ts[i].outcome.SubTest?, digest)
  }

  /** Every text is rewritten, and every lambda of every selector has had its subtest. */
  predicate TextsJoined(sel: Selectors, ts: seq<TextEvent>, digest: Digest) {
    && (forall i :: 0 <= i < |ts| ==> Rewritten(sel, ts, i, digest).Some?)
    && (forall k <- sel :: SeenTexts(sel, ts, k, |ts|) == |sel[k].choices|)
  }

  function JoinedTexts(sel: Selectors, ts: seq<TextEvent>, digest: Digest): (r: seq<TextEvent>)
    requires TextsJoined(sel, ts, digest)
    ensures |r| == |ts|
    ensures forall i :: 0 <= i < |ts| ==> r[i] == ts[i].(text := Rewritten(sel, ts, i, digest).value)
  {
    seq(|ts|, i requires 0 <= i < |ts| => ts[i].(text := Rewritten(sel, ts, i, digest).value))
  }

  /** The rewritten trace; none stands for every `ValueError`. */
  ghost function TextTrace(s: Source, ts: seq<TextEvent>, digest: Digest): Option<seq<TextEvent>> {
    var sel := SelectorsOf(Channels(s));
    if ChannelsOk(Channels(s)) && TextsJoined(sel, ts, digest) then Some(JoinedTexts(sel, ts, digest)) else None
  }

  // ---------------------------------------------------------------- the algorithm

  /** `positions` knows how many subtests of each parent were rewritten among the first `n` texts. */
  ghost predicate TracksTexts(sel: Selectors, ts: seq<TextEvent>, n: nat, positions: map<string, nat>)
    requires n <= |ts|
  {
    forall k <- sel :: Position(positions, k) == SeenTexts(sel, ts, k, n)
  }

  /** One iteration on the text of an event. */
  method RewriteOne(sel: Selectors, ts: seq<TextEvent>, i: nat, digest: Digest, before: map<string, nat>)
    returns (item: Option<TextEvent>, positions: map<string, nat>)
    requires i < |ts| && TracksTexts(sel, ts, i, before)
    ensures item == var text := Rewritten(sel, ts, i, digest);
                    if text.Some? then Some(ts[i].(text := text.value)) else None
    ensures item.Some? ==> TracksTexts(sel, ts, i + 1, positions)
  {
    var t := ts[i];
    var base := BaseOf(t.text);
    positions := before;
    if base !in sel || !t.outcome.SubTest? { return Some(t), positions; }
    var c := sel[base];
    var offset := Position(positions, base);
    if offset >= |c.choices| { return None, positions; }
    var found := Search(false, t.text, c.arg);
    if found.None? || Number(found.value) != c.choices[offset].line { return None, positions; }
    var token := c.arg + "=ast:" + digest(base, c.choices[offset].dump, offset);
    positions := positions[base := offset + 1];
    item := Some(t.(text := Sub(false, t.text, c.arg, token)));
  }

  /** The loop on texts, up to the observations of the clock. */
  method RewriteTrace(s: Source, ts: seq<TextEvent>, digest: Digest) returns (r: Option<seq<TextEvent>>)
    ensures r == TextTrace(s, ts, digest)
  {
    var found := FindSelectors(s);
    if found.None? { return None; }
    var sel := found.value;
    var positions: map<string, nat> := map[];
    var result: seq<TextEvent> := [];
    for i := 0 to |ts|
      invariant TracksTexts(sel, ts, i, positions)
      invariant |result| == i
      invariant forall j :: 0 <= j < i ==>
        Rewritten(sel, ts, j, digest).Some? && result[j] == ts[j].(text := Rewritten(sel, ts, j, digest).value)
    {
      var item;
      item, positions := RewriteOne(sel, ts, i, digest, positions);
      if item.None? { return None; }
      result := result + [item.value];
    }
    if exists k <- sel :: Position(positions, k) != |sel[k].choices| { return None; }
    assert TextsJoined(sel, ts, digest) && result == JoinedTexts(sel, ts, digest);
    r := Some(result);
  }

  // ---------------------------------------------------------------- texts and fields

  function Texts(es: seq<Event>, show: Show): (ts: seq<TextEvent>)
    ensures |ts| == |es|
    ensures forall i :: 0 <= i < |es| ==> ts[i] == TextEvent(IdText(es[i].id, show), es[i].outcome, es[i].caseIndex)
  {
    seq(|es|, i requires 0 <= i < |es| => TextEvent(IdText(es[i].id, show), es[i].outcome, es[i].caseIndex))
  }

  /** What parents' names look like: none contains the opening of the labels. */
  predicate ProperBases(es: seq<Event>) {
    forall i :: 0 <= i < |es| ==> NoOpening(es[i].id.base)
  }

  /** No selected id of the trace hides a match outside its label. */
  predicate ReadableTrace(sel: Selectors, es: seq<Event>, show: Show) {
    forall i :: 0 <= i < |es| ==> Readable(sel, es[i], show)
  }

  /** The texts have the bases and the outcomes of the events. */
  ghost predicate SameBases(ts: seq<TextEvent>, es: seq<Event>) {
    |ts| == |es| && forall i :: 0 <= i < |ts| ==> BaseOf(ts[i].text) == es[i].id.base && ts[i].outcome == es[i].outcome
  }

  lemma TextsHaveBases(es: seq<Event>, show: Show)
    requires ProperBases(es)
    ensures SameBases(Texts(es, show), es)
  {
    forall i | 0 <= i < |es| ensures BaseOf(Texts(es, show)[i].text) == es[i].id.base {
      BaseOfId(es[i].id, show);
    }
  }

  /** Then they count the same subtests of each parent. */
  lemma {:induction false} SameCounts(sel: Selectors, ts: seq<TextEvent>, es: seq<Event>, base: string, n: nat)
    requires n <= |es| && SameBases(ts, es)
    ensures SeenTexts(sel, ts, base, n) == Seen(sel, es, base, n)
  {
    if n > 0 {
      SameCounts(sel, ts, es, base, n - 1);
      assert BaseOf(ts[n - 1].text) == es[n - 1].id.base;
    }
  }

  /** One text of the trace is rewritten as its fields say, if its id hides no match, and, for an event
      that the model accepts, only then. */
  ghost predicate RewrittenAlike(sel: Selectors, es: seq<Event>, i: nat, show: Show, digest: Digest)
    requires i < |es|
  {
    var text := Rewritten(sel, Texts(es, show), i, digest);
    && (Readable(sel, es[i], show) ==> text == FieldRewrite(sel, es, i, show))
    && (Proven(sel, es, i) && text == FieldRewrite(sel, es, i, show) ==> Readable(sel, es[i], show))
  }

  lemma SameRewrite(sel: Selectors, es: seq<Event>, i: nat, show: Show, digest: Digest)
    requires i < |es| && ProperBases(es) && WritesDigests(show, digest)
    requires SameBases(Texts(es, show), es) && forall k <- sel :: IsName(sel[k].arg)
    ensures RewrittenAlike(sel, es, i, show, digest)
  {
    SameCounts(sel, Texts(es, show), es, es[i].id.base, i);
    TextIsJoined(sel, es, i, show, digest);
  }

  ghost predicate TraceRewrittenAlike(sel: Selectors, es: seq<Event>, show: Show, digest: Digest) {
    && (forall k <- sel :: SeenTexts(sel, Texts(es, show), k, |es|) == Seen(sel, es, k, |es|))
    && (forall i :: 0 <= i < |es| ==> RewrittenAlike(sel, es, i, show, digest))
  }

  /** The same for all texts. */
  lemma SameRewrites(s: Source, es: seq<Event>, show: Show, digest: Digest)
    requires ProperBases(es) && WritesDigests(show, digest) && ChannelsOk(Channels(s))
    ensures TraceRewrittenAlike(SelectorsOf(Channels(s)), es, show, digest)
  {
    var cs, ts := Channels(s), Texts(es, show);
    var sel := SelectorsOf(cs);
    TextsHaveBases(es, show);
    forall k <- sel ensures IsName(sel[k].arg) && SeenTexts(sel, ts, k, |es|) == Seen(sel, es, k, |es|) {
      SelectorNamesAreWords(cs, k);
      SameCounts(sel, ts, es, k, |es|);
    }
    forall i | 0 <= i < |es| ensures RewrittenAlike(sel, es, i, show, digest) {
      SameRewrite(sel, es, i, show, digest);
    }
  }

  /** The joined trace, as texts. */
  ghost predicate WritesJoined(sel: Selectors, es: seq<Event>, show: Show, digest: Digest) {
    && Joined(sel, es) && TextsJoined(sel, Texts(es, show), digest)
    && JoinedTexts(sel, Texts(es, show), digest) == Texts(JoinedEvents(sel, es), show)
  }

  lemma ReadableIsJoined(sel: Selectors, es: seq<Event>, show: Show, digest: Digest)
    requires TraceRewrittenAlike(sel, es, show, digest) && ReadableTrace(sel, es, show)
    ensures TextsJoined(sel, Texts(es, show), digest) <==> Joined(sel, es)
    ensures Joined(sel, es) ==> WritesJoined(sel, es, show, digest)
  {
    var ts := Texts(es, show);
    forall i | 0 <= i < |es| ensures Rewritten(sel, ts, i, digest) == FieldRewrite(sel, es, i, show) {
      assert Readable(sel, es[i], show);
      assert RewrittenAlike(sel, es, i, show, digest);
    }
    forall i | 0 <= i < |es| ensures Proven(sel, es, i) <==> Rewritten(sel, ts, i, digest).Some? {
      assert Rewritten(sel, ts, i, digest) == FieldRewrite(sel, es, i, show);
    }
    if Joined(sel, es) {
      forall i | 0 <= i < |es| ensures JoinedTexts(sel, ts, digest)[i] == Texts(JoinedEvents(sel, es), show)[i] {
        assert Rewritten(sel, ts, i, digest) == FieldRewrite(sel, es, i, show);
      }
    }
  }

  lemma JoinedIsReadable(sel: Selectors, es: seq<Event>, show: Show, digest: Digest)
    requires TraceRewrittenAlike(sel, es, show, digest) && WritesJoined(sel, es, show, digest)
    ensures ReadableTrace(sel, es, show)
  {
    forall i | 0 <= i < |es| ensures Readable(sel, es[i], show) {
      assert JoinedTexts(sel, Texts(es, show), digest)[i] == Texts(JoinedEvents(sel, es), show)[i];
      assert RewrittenAlike(sel, es, i, show, digest);
    }
  }

  /** For a whole trace.  If no selected id hides a match, the loop accepts the texts if and only if the
      fields join, and writes the texts of the joined events; and for a trace that joins it does so only
      if none hides a match. */
  lemma TraceAgrees(s: Source, es: seq<Event>, show: Show, digest: Digest)
    requires ProperBases(es) && WritesDigests(show, digest)
    ensures var sel := SelectorsOf(Channels(s));
            var accepted := ChannelsOk(Channels(s)) && Joined(sel, es);
            var joined := TextTrace(s, Texts(es, show), digest);
            && (ReadableTrace(sel, es, show) ==>
                  joined == if accepted then Some(Texts(JoinedEvents(sel, es), show)) else None)
            && (accepted && joined == Some(Texts(JoinedEvents(sel, es), show)) ==> ReadableTrace(sel, es, show))
  {
    var sel := SelectorsOf(Channels(s));
    if ChannelsOk(Channels(s)) {
      SameRewrites(s, es, show, digest);
      if ReadableTrace(sel, es, show) {
        ReadableIsJoined(sel, es, show, digest);
      }
      if Joined(sel, es) && TextTrace(s, Texts(es, show), digest) == Some(Texts(JoinedEvents(sel, es), show)) {
        JoinedIsReadable(sel, es, show, digest);
      }
    }
  }
}
