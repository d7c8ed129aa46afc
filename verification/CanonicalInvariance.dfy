/** Canonical events are invariant under reformatting. */
module CanonicalInvariance {
  import opened Wrappers
  import opened CanonicalEvents

  // ---------------------------------------------------------------- sources equal up to line numbers

  predicate SameChoices(a: seq<Lambda>, b: seq<Lambda>) {
    |a| == |b| && forall k :: 0 <= k < |a| ==> a[k].dump == b[k].dump
  }

  predicate SameLoop(a: Loop, b: Loop) {
    && a.target == b.target && a.calls == b.calls
    && (if a.iter.Lambdas? && b.iter.Lambdas? then SameChoices(a.iter.elts, b.iter.elts) else a.iter == b.iter)
  }

  predicate SameMethod(a: Method, b: Method) {
    && a.name == b.name && a.digest == b.digest && a.topLoops == b.topLoops
    && |a.loops| == |b.loops| && forall k :: 0 <= k < |a.loops| ==> SameLoop(a.loops[k], b.loops[k])
  }

  predicate SameMethods(a: seq<Method>, b: seq<Method>) {
    |a| == |b| && forall k :: 0 <= k < |a| ==> SameMethod(a[k], b[k])
  }

  predicate SameSource(a: Source, b: Source) {
    |a| == |b| && forall k :: 0 <= k < |a| ==> a[k].name == b[k].name && SameMethods(a[k].methods, b[k].methods)
  }

  predicate SameChannel(a: Channel, b: Channel) {
    a.key == b.key && a.arg == b.arg && SameChoices(a.choices, b.choices)
  }

  predicate SameChannels(a: seq<Channel>, b: seq<Channel>) {
    |a| == |b| && forall k :: 0 <= k < |a| ==> SameChannel(a[k], b[k])
  }

  lemma {:induction false} SameKeywordChannels(key: string, target: Option<string>, a: seq<Lambda>, b: seq<Lambda>, ks: seq<Keyword>)
    requires SameChoices(a, b)
    ensures SameChannels(KeywordChannels(key, target, a, ks), KeywordChannels(key, target, b, ks))
  {
    if ks != [] {
      SameKeywordChannels(key, target, a, b, ks[1..]);
    }
  }

  lemma {:induction false} SameCallChannels(key: string, target: Option<string>, a: seq<Lambda>, b: seq<Lambda>, cs: seq<Call>)
    requires SameChoices(a, b)
    ensures SameChannels(CallChannels(key, target, a, cs), CallChannels(key, target, b, cs))
  {
    if cs != [] {
      SameKeywordChannels(key, target, a, b, cs[0].keywords);
      SameCallChannels(key, target, a, b, cs[1..]);
    }
  }

  lemma {:induction false} SameLoopChannels(key: string, a: seq<Loop>, b: seq<Loop>)
    requires |a| == |b| && forall k :: 0 <= k < |a| ==> SameLoop(a[k], b[k])
    ensures SameChannels(LoopChannels(key, a), LoopChannels(key, b))
  {
    if a != [] {
      assert SameLoop(a[0], b[0]);
      if a[0].iter.Lambdas? {
        SameCallChannels(key, a[0].target, a[0].iter.elts, b[0].iter.elts, a[0].calls);
      }
      SameLoopChannels(key, a[1..], b[1..]);
    }
  }

  lemma {:induction false} SameMethodChannels(cls: string, a: seq<Method>, b: seq<Method>)
    requires SameMethods(a, b)
    ensures SameChannels(MethodChannels(cls, a), MethodChannels(cls, b))
  {
    if a != [] {
      assert SameMethod(a[0], b[0]);
      SameLoopChannels(Key(cls, a[0].name), a[0].loops, b[0].loops);
      SameMethodChannels(cls, a[1..], b[1..]);
    }
  }

  lemma {:induction false} SameSourceChannels(a: Source, b: Source)
    requires SameSource(a, b)
    ensures SameChannels(Channels(a), Channels(b))
  {
    if a != [] {
      SameMethodChannels(a[0].name, a[0].methods, b[0].methods);
      SameSourceChannels(a[1..], b[1..]);
    }
  }

  predicate SameSelectors(a: Selectors, b: Selectors) {
    a.Keys == b.Keys && forall k <- a :: SameChannel(a[k], b[k])
  }

  lemma {:induction false} SameChannelsSelect(a: seq<Channel>, b: seq<Channel>)
    requires SameChannels(a, b)
    ensures SameSelectors(SelectorsOf(a), SelectorsOf(b))
  {
    if a != [] {
      var n := |a| - 1;
      SameChannelsSelect(a[..n], b[..n]);
      assert SameChannel(a[n], b[n]);
    }
  }

  lemma SameChannelsOk(a: seq<Channel>, b: seq<Channel>)
    requires SameChannels(a, b)
    ensures ChannelsOk(a) <==> ChannelsOk(b)
  {
    forall k | 0 <= k < |a|
      ensures a[k].key == b[k].key && (Recognised(a[k]) <==> Recognised(b[k]))
    {
      assert SameChannel(a[k], b[k]);
    }
    assert (forall c <- a :: Recognised(c)) <==> forall k :: 0 <= k < |a| ==> Recognised(a[k]);
    assert (forall c <- b :: Recognised(c)) <==> forall k :: 0 <= k < |b| ==> Recognised(b[k]);
  }

  // ---------------------------------------------------------------- traces equal up to those lines

  /** Labels that differ at most in the numbers of the selecting parameter. */
  predicate SameFields(a: seq<Field>, b: seq<Field>, arg: string) {
    && |a| == |b|
    && forall k :: 0 <= k < |a| ==>
         a[k] == b[k] || (a[k].name == b[k].name == arg && a[k].value.Num? && b[k].value.Num?)
  }

  /** The same event observed by a clock that runs `d` microseconds ahead. */
  function Shift(e: Event, d: int): Event {
    if IsClock(e) && ObservedAt(e).Some?
    then e.(id := Id(e.id.base, [Field("observed", Time(ObservedAt(e).value + d))]))
    else e
  }

  /** Event `i` of both traces is the same up to the line of the lambda that is due there: it
      carries that line in the one source exactly if it does in the other. */
  predicate SameEvent(a: Selectors, es: seq<Event>, b: Selectors, fs: seq<Event>, i: nat, d: int)
    requires i < |es| && i < |fs|
  {
    var e, f := es[i], fs[i];
    if !Selected(a, e) then f == Shift(e, d) else
    && f.outcome == e.outcome && f.caseIndex == e.caseIndex && f.id.base == e.id.base
    && f.id.base in b
    && SameFields(e.id.fields, f.id.fields, a[e.id.base].arg)
    && (var k := Seen(a, es, e.id.base, i);
        k < |a[e.id.base].choices| && k < |b[e.id.base].choices| ==>
          (LineLabel(e.id.fields, a[e.id.base].arg) == Some(a[e.id.base].choices[k].line) <==>
           LineLabel(f.id.fields, a[e.id.base].arg) == Some(b[e.id.base].choices[k].line)))
  }

  predicate SameTraces(a: Selectors, es: seq<Event>, b: Selectors, fs: seq<Event>, d: int) {
    |es| == |fs| && forall i :: 0 <= i < |es| ==> SameEvent(a, es, b, fs, i, d)
  }

  lemma {:induction false} SameSeen(a: Selectors, es: seq<Event>, b: Selectors, fs: seq<Event>, d: int, base: string, n: nat)
    requires SameSelectors(a, b) && SameTraces(a, es, b, fs, d) && n <= |es|
    ensures Seen(a, es, base, n) == Seen(b, fs, base, n)
  {
    if n > 0 {
      SameSeen(a, es, b, fs, d, base, n - 1);
      assert SameEvent(a, es, b, fs, n - 1, d);
    }
  }

  lemma SameProven(a: Selectors, es: seq<Event>, b: Selectors, fs: seq<Event>, d: int, i: nat)
    requires SameSelectors(a, b) && SameTraces(a, es, b, fs, d) && i < |es|
    ensures Proven(a, es, i) <==> Proven(b, fs, i)
    ensures Proven(a, es, i) ==> JoinedEvent(b, fs, i) == Shift(JoinedEvent(a, es, i), if Selected(a, es[i]) then 0 else d)
  {
    assert SameEvent(a, es, b, fs, i, d);
    var e, f := es[i], fs[i];
    if Selected(a, e) {
      SameSeen(a, es, b, fs, d, e.id.base, i);
      var c := a[e.id.base];
      assert SameChannel(c, b[e.id.base]);
      if Proven(a, es, i) {
        var k := Seen(a, es, e.id.base, i);
        var v := Selector(e.id.base, c.choices[k].dump, k);
        assert Relabel(e.id.fields, c.arg, v) == Relabel(f.id.fields, c.arg, v);
        var j := JoinedEvent(a, es, i);
        assert Shift(j, 0) == j;
      }
    }
  }

  /** No recognised selector belongs to the clock test. */
  lemma ClockIsNoSelector()
    ensures CLOCK_ID !in LINE_SELECTORS
  {
    var n := |HOT_MODULE| + 1;
    var x := Key("AccountingOnlyClockTests", "test_accounting_only_cannot_authorize_current_receipt_frontier_or_refresh");
    var y := Key("SourceConflictRecoveryTests", "test_recovery_unknown_or_edited_disposition_denied");
    assert x[n] == 'A' && y[n] == 'S' && CLOCK_ID[n] == 'P';
  }

  lemma SelectedIsNotClock(s: Source, e: Event)
    requires ChannelsOk(Channels(s)) && Selected(SelectorsOf(Channels(s)), e)
    ensures !IsClock(e)
  {
    var cs := Channels(s);
    SelectorKeys(cs);
    var c := SelectorsOf(cs)[e.id.base];
    assert c in cs && Recognised(c);
    ClockIsNoSelector();
  }

  predicate ShiftedTrace(es: seq<Event>, fs: seq<Event>, d: int) {
    |es| == |fs| && forall i :: 0 <= i < |es| ==> fs[i] == Shift(es[i], d)
  }

  lemma {:induction false} SameNamed(a: Source, b: Source, name: string)
    requires SameSource(a, b)
    ensures SameSource(Named(a, name), Named(b, name))
  {
    if a != [] {
      SameNamed(a[1..], b[1..], name);
    }
  }

  lemma {:induction false} SameNamedMethods(a: seq<Method>, b: seq<Method>, name: string)
    requires SameMethods(a, b)
    ensures SameMethods(NamedMethods(a, name), NamedMethods(b, name))
  {
    if a != [] {
      assert SameMethod(a[0], b[0]);
      SameNamedMethods(a[1..], b[1..], name);
    }
  }

  lemma SameClockBound(a: Source, b: Source)
    requires SameSource(a, b)
    ensures Named(a, CLOCK_CLASS) == [] <==> Named(b, CLOCK_CLASS) == []
    ensures ClockBound(a) <==> ClockBound(b)
  {
    SameNamed(a, b, CLOCK_CLASS);
    var x, y := Named(a, CLOCK_CLASS), Named(b, CLOCK_CLASS);
    if |x| == 1 {
      assert SameMethods(x[0].methods, y[0].methods);
      SameNamedMethods(x[0].methods, y[0].methods, CLOCK_METHOD);
      var ms, ns := NamedMethods(x[0].methods, CLOCK_METHOD), NamedMethods(y[0].methods, CLOCK_METHOD);
      if |ms| == 1 {
        assert SameMethod(ms[0], ns[0]);
      }
    }
  }

  lemma ShiftKeepsClock(e: Event, d: int)
    ensures var f := Shift(e, d);
            && f.outcome == e.outcome && f.caseIndex == e.caseIndex && f.id.base == e.id.base
            && (Observes(f) <==> Observes(e)) && (f.id.fields == [] <==> e.id.fields == [])
            && (IsClock(e) ==> ObservedAt(f) == if ObservedAt(e).Some? then Some(ObservedAt(e).value + d) else None)
            && (!IsClock(e) ==> f == e)
  {
  }

  lemma ShiftKeepsFirst(es: seq<Event>, fs: seq<Event>, d: int)
    requires ShiftedTrace(es, fs, d)
    ensures FirstClock(es) == FirstClock(fs)
    ensures NoStrayClock(es) <==> NoStrayClock(fs)
  {
    forall i | 0 <= i < |es|
      ensures (IsClock(fs[i]) <==> IsClock(es[i])) && (Observes(fs[i]) <==> Observes(es[i]))
    {
      ShiftKeepsClock(es[i], d);
    }
    var i, j := FirstClock(es), FirstClock(fs);
    assert i < |es| ==> IsClock(es[i]) && IsClock(fs[i]);
    assert j < |fs| ==> IsClock(fs[j]) && IsClock(es[j]);
    assert NoStrayClock(es) <==> forall i :: 0 <= i < |es| && Observes(es[i]) ==> IsClock(es[i]);
    assert NoStrayClock(fs) <==> forall i :: 0 <= i < |fs| && Observes(fs[i]) ==> IsClock(fs[i]);
  }

  lemma ShiftKeepsTriple(es: seq<Event>, fs: seq<Event>, d: int, i: nat)
    requires ShiftedTrace(es, fs, d) && i + 2 < |es|
    ensures ClockTriple(es, i) <==> ClockTriple(fs, i)
  {
    forall j | 0 <= j < |es|
      ensures (IsClock(fs[j]) <==> IsClock(es[j])) && fs[j].caseIndex == es[j].caseIndex && fs[j].outcome == es[j].outcome
    {
      ShiftKeepsClock(es[j], d);
    }
    ShiftKeepsClock(es[i], d);
    ShiftKeepsClock(es[i + 1], d);
    ShiftKeepsClock(es[i + 2], d);
    assert OnlyClocks(es, i) <==> OnlyClocks(fs, i);
    if OnlyClocks(es, i) {
      assert IsClock(es[i]) && IsClock(es[i + 1]);
    }
  }

  lemma {:induction false} ShiftKeepsResult(a: Source, b: Source, es: seq<Event>, fs: seq<Event>, d: int)
    requires SameSource(a, b) && ShiftedTrace(es, fs, d)
    ensures ClockAccepted(a, es) <==> ClockAccepted(b, fs)
    ensures ClockAccepted(a, es) ==> ClockResult(a, es) == ClockResult(b, fs)
  {
    SameClockBound(a, b);
    ShiftKeepsFirst(es, fs, d);
    var i := FirstClock(es);
    if i + 2 < |es| {
      ShiftKeepsTriple(es, fs, d, i);
    }
    if ClockAccepted(a, es) {
      if Named(a, CLOCK_CLASS) == [] {
        NoClockNoShift(es, fs, d);
      } else {
        StampedAlike(es, fs, d, i);
      }
    }
  }

  lemma NoClockNoShift(es: seq<Event>, fs: seq<Event>, d: int)
    requires ShiftedTrace(es, fs, d) && FirstClock(es) == |es|
    ensures es == fs
  {
    forall j | 0 <= j < |es| ensures es[j] == fs[j] {
      ShiftKeepsClock(es[j], d);
    }
  }

  lemma StampedAlike(es: seq<Event>, fs: seq<Event>, d: int, i: nat)
    requires ShiftedTrace(es, fs, d) && i + 2 < |es| && ClockTriple(es, i)
    ensures es[i := Stamp(es[i], "deadline")][i + 1 := Stamp(es[i + 1], "deadline+1s")]
            == fs[i := Stamp(fs[i], "deadline")][i + 1 := Stamp(fs[i + 1], "deadline+1s")]
  {
    forall j | 0 <= j < |es| && j != i && j != i + 1 ensures es[j] == fs[j] {
      ShiftKeepsClock(es[j], d);
      if j == i + 2 {
        assert es[j].id.fields == [];
      }
    }
    ShiftKeepsClock(es[i], d);
    ShiftKeepsClock(es[i + 1], d);
  }

  /** Invariance under reformatting.  Two sources that differ only in the lines their lambdas start
      on, with traces that differ only in those line labels and in when the clock test ran, are
      both accepted or both refused, and canonicalise to the same list. */
  lemma CanonicalIsInvariant(a: Source, b: Source, es: seq<Event>, fs: seq<Event>, d: int)
    requires SameSource(a, b)
    requires SameTraces(SelectorsOf(Channels(a)), es, SelectorsOf(Channels(b)), fs, d)
    ensures Canonical(a, es) == Canonical(b, fs)
  {
    var x, y := SelectorsOf(Channels(a)), SelectorsOf(Channels(b));
    SameSourceChannels(a, b);
    SameChannelsOk(Channels(a), Channels(b));
    SameChannelsSelect(Channels(a), Channels(b));
    SameJoined(x, es, y, fs, d);
    if ChannelsOk(Channels(a)) && Joined(x, es) {
      forall e | Selected(x, e) ensures !IsClock(e) {
        SelectedIsNotClock(a, e);
      }
      JoinedIsShifted(x, es, y, fs, d);
      ShiftKeepsResult(a, b, JoinedEvents(x, es), JoinedEvents(y, fs), d);
    }
  }

  lemma SameJoined(x: Selectors, es: seq<Event>, y: Selectors, fs: seq<Event>, d: int)
    requires SameSelectors(x, y) && SameTraces(x, es, y, fs, d)
    ensures Joined(x, es) <==> Joined(y, fs)
  {
    forall i | 0 <= i < |es|
      ensures Proven(x, es, i) <==> Proven(y, fs, i)
    {
      SameProven(x, es, y, fs, d, i);
    }
    forall k | k in x
      ensures Seen(x, es, k, |es|) == Seen(y, fs, k, |fs|) && |x[k].choices| == |y[k].choices|
    {
      SameSeen(x, es, y, fs, d, k, |es|);
      assert SameChannel(x[k], y[k]);
    }
  }

  lemma JoinedIsShifted(x: Selectors, es: seq<Event>, y: Selectors, fs: seq<Event>, d: int)
    requires SameSelectors(x, y) && SameTraces(x, es, y, fs, d)
    requires Joined(x, es) && Joined(y, fs) && forall e :: Selected(x, e) ==> !IsClock(e)
    ensures ShiftedTrace(JoinedEvents(x, es), JoinedEvents(y, fs), d)
  {
    var p, q := JoinedEvents(x, es), JoinedEvents(y, fs);
    forall i | 0 <= i < |es|
      ensures q[i] == Shift(p[i], d)
    {
      SameProven(x, es, y, fs, d, i);
    }
  }
}
