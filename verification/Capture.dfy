/** The capture protocol of `_run_bounded`. */
module Capture {
  // Two reader threads move chunks of the child's output through one bounded queue to a consumer,
  // which enforces an output cap and a deadline.  Every atomic action of a thread is an `Event`; a
  // run is any sequence of enabled events, so every interleaving is a run.  The child's output, the
  // clock and the exit code are arbitrary.

  const CHUNK_BYTES: nat := 8192
  const QUEUE_SLOTS: nat := 64

  type Bytes = seq<bv8>

  datatype Stream = Stdout | Stderr

  /** What a reader hands to `_put_stream`: a chunk, or the end marker. */
  datatype Payload = Chunk(bytes: Bytes) | End

  datatype Item = Item(name: Stream, payload: Payload)

  /** Where a reader thread stands. */
  datatype Reader =
    | AtLoop                      // about to test the stop flag in `_read_stream`
    | Reading                     // inside `stream.read`
    | AtPut(payload: Payload)     // about to test the stop flag in `_put_stream`
    | Putting(payload: Payload)   // inside `output.put(item, timeout=...)`
    | Done

  /** One stream: its reader, the bytes the child will still deliver, and the consumer's view. */
  datatype Side = Side(reader: Reader, unread: Bytes, failed: bool, captured: Bytes, ended: bool)

  datatype Consumer = AtHead | Getting | Cleanup | Stopping | Joining | Finished

  datatype Blocker =
    | Timeout
    | OutputLimit(name: Stream)
    | ProcessCleanupFailed
    | ReaderCleanupFailed
    | CommandFailed(code: int)

  datatype State = State(
    out: Side, err: Side, queue: seq<Item>, stopped: bool,
    consumer: Consumer, returncode: int, blockers: seq<Blocker>)
  {
    function Of(n: Stream): Side {
      if n.Stdout? then out else err
    }

    function With(n: Stream, side: Side): State {
      if n.Stdout? then this.(out := side) else this.(err := side)
    }

    predicate InLoop() {
      consumer.AtHead? || consumer.Getting?
    }

    predicate BeforeWait() {
      InLoop() || consumer.Cleanup?
    }

    predicate AllEnded() {
      out.ended && err.ended
    }

    predicate AllDone() {
      out.reader.Done? && err.reader.Done?
    }
  }

  /** The output cap and everything the child writes to its two pipes. */
  datatype Config = Config(cap: nat, out: Bytes, err: Bytes) {
    function Produced(n: Stream): Bytes {
      if n.Stdout? then out else err
    }
  }

  /** One atomic action of one thread.  `ReadFails` is a `stream.read` that raises. */
  datatype Event =
    | TestStop(n: Stream)
    | ReadChunk(n: Stream, size: nat)
    | ReadEof(n: Stream)
    | ReadFails(n: Stream)
    | PutTest(n: Stream)
    | PutOk(n: Stream)
    | PutFull(n: Stream)
    | ReaderIdle(n: Stream)
    | LoopExit
    | ClockLate
    | ClockOk
    | GetItem
    | GetEmpty
    | Wait(code: int, lost: bool)
    | SetStop
    | Join
    | ConsumerIdle

  datatype Actor = ReaderOf(name: Stream) | TheConsumer

  function ActorOf(e: Event): Actor {
    match e
    case TestStop(n) => ReaderOf(n)
    case ReadChunk(n, _) => ReaderOf(n)
    case ReadEof(n) => ReaderOf(n)
    case ReadFails(n) => ReaderOf(n)
    case PutTest(n) => ReaderOf(n)
    case PutOk(n) => ReaderOf(n)
    case PutFull(n) => ReaderOf(n)
    case ReaderIdle(n) => ReaderOf(n)
    case _ => TheConsumer
  }

  function Init(c: Config): State {
    State(Side(AtLoop, c.out, false, [], false), Side(AtLoop, c.err, false, [], false),
          [], false, AtHead, 0, [])
  }

  /** What a reader may do next, given what is left of its stream. */
  predicate CanMove(side: Side, e: Event) {
    match e
    case TestStop(_) => side.reader.AtLoop?
    case ReadChunk(_, size) => side.reader.Reading? && 1 <= size <= CHUNK_BYTES && size <= |side.unread|
    case ReadEof(_) => side.reader.Reading? && side.unread == []
    case ReadFails(_) => side.reader.Reading?
    case PutTest(_) => side.reader.AtPut?
    case PutOk(_) => side.reader.Putting?
    case PutFull(_) => side.reader.Putting?
    case ReaderIdle(_) => side.reader.Done?
    case _ => false
  }

  predicate Enabled(s: State, e: Event) {
    match e
    case LoopExit => s.consumer.AtHead? && s.AllEnded()
    case ClockLate => s.consumer.AtHead? && !s.AllEnded()
    case ClockOk => s.consumer.AtHead? && !s.AllEnded()
    case GetItem => s.consumer.Getting? && s.queue != []
    case GetEmpty => s.consumer.Getting? && s.queue == []
    case Wait(_, _) => s.consumer.Cleanup?
    case SetStop => s.consumer.Stopping?
    case Join => s.consumer.Joining?
    case ConsumerIdle => s.consumer.Finished?
    case _ =>
      && CanMove(s.Of(e.n), e)
      && (e.PutOk? ==> |s.queue| < QUEUE_SLOTS)
      && (e.PutFull? ==> |s.queue| >= QUEUE_SLOTS)
  }

  /** After `_put_stream` returns: back to the read loop, or out of the thread. */
  function AfterPut(p: Payload): Reader {
    if p.End? then Done else AtLoop
  }

  function Move(side: Side, stopped: bool, e: Event): Side
    requires CanMove(side, e)
  {
    match e
    case TestStop(_) => side.(reader := if stopped then AtPut(End) else Reading)
    case ReadChunk(_, size) => side.(reader := AtPut(Chunk(side.unread[..size])), unread := side.unread[size..])
    case ReadEof(_) => side.(reader := AtPut(End))
    case ReadFails(_) => side.(reader := AtPut(End), failed := true)
    case PutTest(_) =>
      side.(reader := if stopped then AfterPut(side.reader.payload) else Putting(side.reader.payload))
    case PutOk(_) => side.(reader := AfterPut(side.reader.payload))
    case PutFull(_) => side.(reader := AtPut(side.reader.payload))
    case ReaderIdle(_) => side
  }

  function ReaderStep(s: State, e: Event): State
    requires ActorOf(e).ReaderOf? && Enabled(s, e)
  {
    s.With(e.n, Move(s.Of(e.n), s.stopped, e))
    .(queue := if e.PutOk? then s.queue + [Item(e.n, s.Of(e.n).reader.payload)] else s.queue)
  }

  /** The consumer's bookkeeping for one payload of a stream. */
  function Take(side: Side, p: Payload): Side {
    match p
    case End => side.(ended := true)
    case Chunk(bytes) => side.(captured := side.captured + bytes)
  }

  /** The consumer takes the item at the head of the queue. */
  function Consume(c: Config, s: State): State
    requires s.queue != []
  {
    var Item(n, p) := s.queue[0];
    var side := Take(s.Of(n), p);
    var s' := s.With(n, side).(queue := s.queue[1..], consumer := AtHead);
    if p.Chunk? && |side.captured| > c.cap
    then s'.(consumer := Cleanup, blockers := s.blockers + [OutputLimit(n)])
    else s'
  }

  /** The verdict: readers still alive after the join are reported, then a bad exit code. */
  function Verdict(s: State): seq<Blocker> {
    var bs := s.blockers + if s.AllDone() then [] else [ReaderCleanupFailed];
    bs + if s.returncode != 0 && bs == [] then [CommandFailed(s.returncode)] else []
  }

  function Step(c: Config, s: State, e: Event): State
    requires Enabled(s, e)
  {
    match e
    case LoopExit => s.(consumer := Cleanup)
    case ClockLate => s.(consumer := Cleanup, blockers := s.blockers + [Timeout])
    case ClockOk => s.(consumer := Getting)
    case GetItem => Consume(c, s)
    case GetEmpty => s.(consumer := AtHead)
    case Wait(code, lost) =>
      s.(consumer := Stopping, returncode := if lost then -9 else code,
         blockers := s.blockers + if lost then [ProcessCleanupFailed] else [])
    case SetStop => s.(consumer := Joining, stopped := true)
    case Join => s.(consumer := Finished, blockers := Verdict(s))
    case ConsumerIdle => s
    case _ => ReaderStep(s, e)
  }

  /** Whether `es` can be executed from `s`, one enabled event after the other. */
  predicate Runs(c: Config, s: State, es: seq<Event>)
    decreases |es|
  {
    es == [] || (Enabled(s, es[0]) && Runs(c, Step(c, s, es[0]), es[1..]))
  }

  function After(c: Config, s: State, es: seq<Event>): State
    requires Runs(c, s, es)
    decreases |es|
  {
    if es == [] then s else After(c, Step(c, s, es[0]), es[1..])
  }

  // ---------------------------------------------------------------- projections of the queue

  /** The payloads of stream `n` in the queue, oldest first. */
  function Queued(q: seq<Item>, n: Stream): seq<Payload> {
    if q == [] then []
    else if q[0].name == n then [q[0].payload] + Queued(q[1..], n)
    else Queued(q[1..], n)
  }

  lemma {:induction false} QueuedAppend(q: seq<Item>, it: Item, n: Stream)
    ensures it.name == n ==> Queued(q + [it], n) == Queued(q, n) + [it.payload]
    ensures it.name != n ==> Queued(q + [it], n) == Queued(q, n)
  {
    if q == [] {
      assert q + [it] == [it] && [it][1..] == [];
    } else {
      assert (q + [it])[1..] == q[1..] + [it];
      QueuedAppend(q[1..], it, n);
    }
  }

  /** The bytes carried by a list of payloads. */
  function Flat(ps: seq<Payload>): Bytes {
    if ps == [] then [] else (if ps[0].Chunk? then ps[0].bytes else []) + Flat(ps[1..])
  }

  lemma {:induction false} FlatAppend(ps: seq<Payload>, p: Payload)
    ensures Flat(ps + [p]) == Flat(ps) + if p.Chunk? then p.bytes else []
  {
    var more := ps + [p];
    if ps == [] {
      assert more == [p] && more[1..] == [];
    } else {
      FlatAppend(ps[1..], p);
      assert more[0] == ps[0] && more[1..] == ps[1..] + [p];
      var first := if ps[0].Chunk? then ps[0].bytes else [];
      assert Flat(more) == first + Flat(ps[1..] + [p]);
      assert Flat(ps) == first + Flat(ps[1..]);
    }
  }

  /** The chunk a reader has read and not yet put. */
  function Held(r: Reader): Bytes {
    if (r.AtPut? || r.Putting?) && r.payload.Chunk? then r.payload.bytes else []
  }

  /** What a stream has produced and the consumer has not yet taken: `ps` is its share of the queue. */
  function InFlight(side: Side, ps: seq<Payload>): Bytes {
    Flat(ps) + (Held(side.reader) + side.unread)
  }

  // ---------------------------------------------------------------- the invariant

  predicate Small(p: Payload) {
    p.Chunk? ==> 1 <= |p.bytes| <= CHUNK_BYTES
  }

  /** The end marker is put once, last, and only after everything readable was read. */
  predicate EndDiscipline(side: Side, ps: seq<Payload>) {
    && (!side.reader.Done? ==> !side.ended && forall p <- ps :: p.Chunk?)
    && (side.reader.Done? && side.ended ==> ps == [])
    && (side.reader.Done? && !side.ended ==>
          ps != [] && ps[|ps| - 1].End? && forall i | 0 <= i < |ps| - 1 :: ps[i].Chunk?)
    && (side.reader.Done? || side.reader == AtPut(End) || side.reader == Putting(End) ==>
          side.failed || side.unread == [])
  }

  /** A stream whose end marker was consumed: its reader is gone and its bytes are accounted for. */
  predicate Settled(produced: Bytes, side: Side, ps: seq<Payload>) {
    && side.reader.Done?
    && ps == []
    && side.captured + side.unread == produced
    && (side.failed || side.unread == [])
  }

  /** The invariant of one stream.  Until the stop flag is set nothing is lost, duplicated or
      reordered between the child and the captured buffer. */
  predicate SideOk(cap: nat, produced: Bytes, side: Side, ps: seq<Payload>, stopped: bool) {
    && (forall p <- ps :: Small(p))
    && (side.reader.AtPut? || side.reader.Putting? ==> Small(side.reader.payload))
    && |side.captured| <= cap + CHUNK_BYTES
    && side.captured <= produced
    && (!stopped ==> side.captured + InFlight(side, ps) == produced && EndDiscipline(side, ps))
    && (side.ended ==> Settled(produced, side, ps))
  }

  predicate StreamOk(c: Config, s: State, n: Stream) {
    SideOk(c.cap, c.Produced(n), s.Of(n), Queued(s.queue, n), s.stopped)
  }

  predicate LimitHit(s: State) {
    OutputLimit(Stdout) in s.blockers || OutputLimit(Stderr) in s.blockers
  }

  /** The invariant of the consumer's bookkeeping. */
  predicate ConsumerOk(c: Config, s: State) {
    && |s.queue| <= QUEUE_SLOTS
    && (s.stopped <==> s.consumer.Joining? || s.consumer.Finished?)
    && (s.InLoop() ==> s.blockers == [] && |s.out.captured| <= c.cap && |s.err.captured| <= c.cap)
    && (OutputLimit(Stdout) in s.blockers <==> |s.out.captured| > c.cap)
    && (OutputLimit(Stderr) in s.blockers <==> |s.err.captured| > c.cap)
    && (ProcessCleanupFailed in s.blockers ==> s.returncode == -9 && !s.BeforeWait())
    && (s.InLoop() || s.AllEnded() || Timeout in s.blockers || LimitHit(s))
    && (!s.consumer.Finished? ==> forall b <- s.blockers :: !b.CommandFailed? && !b.ReaderCleanupFailed?)
    && (s.AllEnded() ==> ReaderCleanupFailed !in s.blockers)
    && (s.consumer.Finished? && s.blockers == [] ==> s.returncode == 0)
    && (s.consumer.Finished? && s.returncode == 0 ==> forall b <- s.blockers :: !b.CommandFailed?)
  }

  predicate Inv(c: Config, s: State) {
    ConsumerOk(c, s) && StreamOk(c, s, Stdout) && StreamOk(c, s, Stderr)
  }

  // ---------------------------------------------------------------- one step keeps the invariant

  lemma Regroup(a: Bytes, b: Bytes, c: Bytes)
    ensures (a + b) + c == a + (b + c)
  {
  }

  /** A put moves the held chunk to the end of the queue. */
  lemma PutKeepsFlow(side: Side, ps: seq<Payload>)
    requires side.reader.Putting?
    ensures InFlight(side.(reader := AfterPut(side.reader.payload)), ps + [side.reader.payload]) == InFlight(side, ps)
  {
    var p := side.reader.payload;
    FlatAppend(ps, p);
    Regroup(Flat(ps), Held(side.reader), side.unread);
    assert Held(AfterPut(p)) + side.unread == side.unread;
  }

  /** A read moves a chunk from the unread bytes into the reader's hand. */
  lemma ReadKeepsFlow(side: Side, ps: seq<Payload>, size: nat)
    requires side.reader.Reading? && size <= |side.unread|
    ensures var chunk := Chunk(side.unread[..size]);
            InFlight(side.(reader := AtPut(chunk), unread := side.unread[size..]), ps) == InFlight(side, ps)
  {
    assert side.unread[..size] + side.unread[size..] == side.unread;
    assert Held(side.reader) + side.unread == side.unread;
  }

  lemma MoveKeepsFlow(side: Side, ps: seq<Payload>, e: Event)
    requires CanMove(side, e)
    ensures var side' := Move(side, false, e);
            var ps' := if e.PutOk? then ps + [side.reader.payload] else ps;
            side'.captured == side.captured && InFlight(side', ps') == InFlight(side, ps)
  {
    match e
    case PutOk(_) => PutKeepsFlow(side, ps);
    case ReadChunk(_, size) => ReadKeepsFlow(side, ps, size);
    case _ => assert Held(Move(side, false, e).reader) == Held(side.reader);
  }

  /** A reader's own step keeps its stream's invariant, whether or not the stop flag is set. */
  lemma MoveKeepsSide(cap: nat, produced: Bytes, side: Side, ps: seq<Payload>, stopped: bool, e: Event)
    requires CanMove(side, e) && SideOk(cap, produced, side, ps, stopped)
    ensures SideOk(cap, produced, Move(side, stopped, e),
                   if e.PutOk? then ps + [side.reader.payload] else ps, stopped)
  {
    if !stopped {
      MoveKeepsFlow(side, ps, e);
    }
  }

  /** What a payload carries. */
  function Carried(p: Payload): Bytes {
    if p.Chunk? then p.bytes else []
  }

  lemma FlatFirst(ps: seq<Payload>)
    requires ps != []
    ensures Flat(ps) == Carried(ps[0]) + Flat(ps[1..])
  {
  }

  lemma PrefixOfConcat(a: Bytes, b: Bytes)
    ensures a <= a + b
  {
  }

  lemma TakeKeepsFlow(side: Side, ps: seq<Payload>)
    requires ps != []
    ensures var side' := Take(side, ps[0]);
            && side'.captured + InFlight(side', ps[1..]) == side.captured + InFlight(side, ps)
            && side'.captured <= side'.captured + InFlight(side', ps[1..])
  {
    var side', first, rest := Take(side, ps[0]), Carried(ps[0]), Flat(ps[1..]);
    var later := Held(side.reader) + side.unread;
    FlatFirst(ps);
    Regroup(first, rest, later);
    Regroup(side.captured, first, rest + later);
    assert side'.captured == side.captured + first;
    PrefixOfConcat(side'.captured, InFlight(side', ps[1..]));
  }

  lemma TakeKeepsEnd(side: Side, ps: seq<Payload>)
    requires ps != [] && EndDiscipline(side, ps)
    ensures EndDiscipline(Take(side, ps[0]), ps[1..])
    ensures Take(side, ps[0]).ended ==> side.reader.Done? && ps[1..] == [] && (side.failed || side.unread == [])
  {
  }

  /** Taking the head of the queue keeps its stream's invariant. */
  lemma TakeKeepsSide(cap: nat, produced: Bytes, side: Side, ps: seq<Payload>)
    requires ps != [] && |side.captured| <= cap
    requires SideOk(cap, produced, side, ps, false)
    ensures SideOk(cap, produced, Take(side, ps[0]), ps[1..], false)
  {
    TakeKeepsFlow(side, ps);
    TakeKeepsEnd(side, ps);
    assert Small(ps[0]);
    var side' := Take(side, ps[0]);
    if side'.ended {
      assert InFlight(side', ps[1..]) == side'.unread;
    }
  }

  lemma ReaderKeepsStream(c: Config, s: State, e: Event, n: Stream)
    requires ActorOf(e).ReaderOf? && Enabled(s, e) && StreamOk(c, s, n)
    ensures StreamOk(c, ReaderStep(s, e), n)
  {
    if e.n == n {
      MoveKeepsSide(c.cap, c.Produced(n), s.Of(n), Queued(s.queue, n), s.stopped, e);
    }
    if e.PutOk? {
      QueuedAppend(s.queue, Item(e.n, s.Of(e.n).reader.payload), n);
    }
  }

  /** What a reader's step leaves to the consumer. */
  lemma MoveKeepsView(side: Side, stopped: bool, e: Event)
    requires CanMove(side, e)
    ensures Move(side, stopped, e).captured == side.captured && Move(side, stopped, e).ended == side.ended
    ensures Move(side, stopped, e).failed <==> side.failed || e.ReadFails?
  {
  }

  lemma ReaderKeepsView(s: State, e: Event)
    requires ActorOf(e).ReaderOf? && Enabled(s, e)
    ensures var t := ReaderStep(s, e);
            && t.out.captured == s.out.captured && t.err.captured == s.err.captured
            && t.out.ended == s.out.ended && t.err.ended == s.err.ended
            && t.consumer == s.consumer && t.stopped == s.stopped
            && t.returncode == s.returncode && t.blockers == s.blockers
            && |t.queue| <= |s.queue| + (if e.PutOk? then 1 else 0)
            && (e.PutOk? ==> |s.queue| < QUEUE_SLOTS)
  {
    MoveKeepsView(s.Of(e.n), s.stopped, e);
  }

  /** The consumer's invariant speaks of nothing else. */
  lemma SameViewSameConsumer(c: Config, s: State, t: State)
    requires ConsumerOk(c, s)
    requires t.out.captured == s.out.captured && t.err.captured == s.err.captured
    requires t.out.ended == s.out.ended && t.err.ended == s.err.ended
    requires t.consumer == s.consumer && t.stopped == s.stopped && t.returncode == s.returncode && t.blockers == s.blockers
    requires |t.queue| <= QUEUE_SLOTS
    ensures ConsumerOk(c, t)
  {
  }

  lemma ReaderKeepsConsumer(c: Config, s: State, e: Event)
    requires ActorOf(e).ReaderOf? && Enabled(s, e) && ConsumerOk(c, s)
    ensures ConsumerOk(c, ReaderStep(s, e))
  {
    ReaderKeepsView(s, e);
    SameViewSameConsumer(c, s, ReaderStep(s, e));
  }

  lemma ConsumeKeepsStream(c: Config, s: State, n: Stream)
    requires Enabled(s, GetItem) && ConsumerOk(c, s) && StreamOk(c, s, n)
    ensures StreamOk(c, Consume(c, s), n)
  {
    if s.queue[0].name == n {
      TakeKeepsSide(c.cap, c.Produced(n), s.Of(n), Queued(s.queue, n));
      assert Queued(s.queue, n)[1..] == Queued(s.queue[1..], n);
    }
  }

  lemma ConsumeKeepsConsumer(c: Config, s: State)
    requires Enabled(s, GetItem) && ConsumerOk(c, s)
    ensures ConsumerOk(c, Consume(c, s))
  {
    var n := s.queue[0].name;
    assert s.blockers + [OutputLimit(n)] == [OutputLimit(n)];
  }

  /** The consumer's other actions touch no stream; only setting the stop flag matters to one. */
  lemma OtherKeepsStream(c: Config, s: State, e: Event, n: Stream)
    requires ActorOf(e).TheConsumer? && !e.GetItem? && Enabled(s, e) && StreamOk(c, s, n)
    ensures StreamOk(c, Step(c, s, e), n)
  {
  }

  lemma OtherKeepsConsumer(c: Config, s: State, e: Event)
    requires ActorOf(e).TheConsumer? && !e.GetItem? && Enabled(s, e) && Inv(c, s)
    ensures ConsumerOk(c, Step(c, s, e))
  {
    match e
    case Join => JoinKeepsConsumer(c, s);
    case Wait(code, lost) =>
      assert forall b <- Step(c, s, e).blockers :: b in s.blockers || (lost && b == ProcessCleanupFailed);
    case _ =>
  }

  /** What the verdict adds: a reader left behind, or else a bad exit code. */
  lemma VerdictMembers(s: State)
    ensures forall b :: b in Verdict(s) <==>
              || b in s.blockers
              || (b == ReaderCleanupFailed && !s.AllDone())
              || (b == CommandFailed(s.returncode) && s.returncode != 0 && s.blockers == [] && s.AllDone())
    ensures Verdict(s) == [] <==> s.blockers == [] && s.AllDone() && s.returncode == 0
  {
    var found := s.blockers + if s.AllDone() then [] else [ReaderCleanupFailed];
    assert found == [] <==> s.blockers == [] && s.AllDone();
  }

  lemma JoinKeepsConsumer(c: Config, s: State)
    requires Enabled(s, Join) && Inv(c, s)
    ensures ConsumerOk(c, Step(c, s, Join))
  {
    VerdictMembers(s);
    EndedAreDone(c, s);
    VerdictIsOk(c, s);
  }

  lemma EndedAreDone(c: Config, s: State)
    requires Inv(c, s)
    ensures s.AllEnded() ==> s.AllDone()
  {
  }

  lemma VerdictIsOk(c: Config, s: State)
    requires s.consumer.Joining? && ConsumerOk(c, s) && (s.AllEnded() ==> s.AllDone())
    requires forall b :: b in Verdict(s) <==>
               || b in s.blockers
               || (b == ReaderCleanupFailed && !s.AllDone())
               || (b == CommandFailed(s.returncode) && s.returncode != 0 && s.blockers == [] && s.AllDone())
    requires Verdict(s) == [] <==> s.blockers == [] && s.AllDone() && s.returncode == 0
    ensures ConsumerOk(c, s.(consumer := Finished, blockers := Verdict(s)))
  {
  }

  /** Every step of every thread keeps the invariant. */
  lemma StepKeepsInv(c: Config, s: State, e: Event)
    requires Enabled(s, e) && Inv(c, s)
    ensures Inv(c, Step(c, s, e))
  {
    if ActorOf(e).ReaderOf? {
      ReaderKeepsConsumer(c, s, e);
      ReaderKeepsStream(c, s, e, Stdout);
      ReaderKeepsStream(c, s, e, Stderr);
    } else if e.GetItem? {
      ConsumeKeepsConsumer(c, s);
      ConsumeKeepsStream(c, s, Stdout);
      ConsumeKeepsStream(c, s, Stderr);
    } else {
      OtherKeepsConsumer(c, s, e);
      OtherKeepsStream(c, s, e, Stdout);
      OtherKeepsStream(c, s, e, Stderr);
    }
  }

  /** Every state of every interleaving satisfies the invariant. */
  lemma {:induction false} RunKeepsInv(c: Config, s: State, es: seq<Event>)
    requires Runs(c, s, es) && Inv(c, s)
    ensures Inv(c, After(c, s, es))
    decreases |es|
  {
    if es != [] {
      StepKeepsInv(c, s, es[0]);
      RunKeepsInv(c, Step(c, s, es[0]), es[1..]);
    }
  }

  // ---------------------------------------------------------------- safety of every run

  /** Bounds that hold in every reachable state, whatever the interleaving: the queue has at most
      64 items, no captured buffer exceeds the cap by more than one chunk, and what is captured
      is always a prefix of what the child wrote. */
  lemma AlwaysBounded(c: Config, es: seq<Event>, n: Stream)
    requires Runs(c, Init(c), es)
    ensures var s := After(c, Init(c), es);
            && |s.queue| <= QUEUE_SLOTS
            && |s.Of(n).captured| <= c.cap + CHUNK_BYTES
            && s.Of(n).captured <= c.Produced(n)
  {
    RunKeepsInv(c, Init(c), es);
  }

  /** Conservation: until the stop flag is set, the bytes captured, queued, held by the reader
      and unread make up exactly the child's output, in order. */
  lemma AlwaysConserved(c: Config, es: seq<Event>, n: Stream)
    requires Runs(c, Init(c), es)
    ensures var s := After(c, Init(c), es);
            !s.stopped ==>
              s.Of(n).captured + (Flat(Queued(s.queue, n)) + (Held(s.Of(n).reader) + s.Of(n).unread)) == c.Produced(n)
  {
    RunKeepsInv(c, Init(c), es);
  }

  /** A PASS result: both readers are finished, the queue is drained, the exit code is 0, each
      buffer is within the cap, and a stream whose reads never raised was captured completely. */
  lemma PassIsComplete(c: Config, es: seq<Event>, n: Stream)
    requires Runs(c, Init(c), es)
    requires After(c, Init(c), es).consumer.Finished? && After(c, Init(c), es).blockers == []
    ensures var s := After(c, Init(c), es);
            && s.returncode == 0
            && s.AllEnded() && s.AllDone()
            && Queued(s.queue, n) == []
            && |s.Of(n).captured| <= c.cap
            && s.Of(n).captured + s.Of(n).unread == c.Produced(n)
            && (s.Of(n).captured == c.Produced(n) <==> s.Of(n).unread == [])
            && (!s.Of(n).failed ==> s.Of(n).captured == c.Produced(n))
  {
    RunKeepsInv(c, Init(c), es);
  }

  /** What one step leaves behind: an expired clock and a read that raised. */
  lemma StepKeepsFlags(c: Config, s: State, e: Event)
    requires Enabled(s, e)
    ensures var t := Step(c, s, e);
            && (Timeout in t.blockers <==> Timeout in s.blockers || e == ClockLate)
            && (t.out.failed <==> s.out.failed || e == ReadFails(Stdout))
            && (t.err.failed <==> s.err.failed || e == ReadFails(Stderr))
  {
    if ActorOf(e).ReaderOf? {
      MoveKeepsView(s.Of(e.n), s.stopped, e);
    } else if e.Join? {
      VerdictMembers(s);
    }
  }

  /** The exit code is set once, by the wait that reaps the child. */
  lemma StepSetsCode(c: Config, s: State, e: Event)
    requires Enabled(s, e)
    ensures var t := Step(c, s, e);
            && (!s.BeforeWait() ==> !t.BeforeWait() && t.returncode == s.returncode && !e.Wait?)
            && (s.BeforeWait() ==> (t.BeforeWait() <==> !e.Wait?))
            && (s.BeforeWait() && e.Wait? ==> (t.returncode == 0 <==> e == Wait(0, false)))
  {
  }

  lemma {:induction false} HistoryOfFlags(c: Config, s: State, es: seq<Event>)
    requires Runs(c, s, es)
    ensures var t := After(c, s, es);
            && (Timeout in t.blockers <==> Timeout in s.blockers || ClockLate in es)
            && (t.out.failed <==> s.out.failed || ReadFails(Stdout) in es)
            && (t.err.failed <==> s.err.failed || ReadFails(Stderr) in es)
    decreases |es|
  {
    if es != [] {
      StepKeepsFlags(c, s, es[0]);
      HistoryOfFlags(c, Step(c, s, es[0]), es[1..]);
    }
  }

  lemma {:induction false} HistoryOfWait(c: Config, s: State, es: seq<Event>)
    requires Runs(c, s, es)
    ensures var t := After(c, s, es);
            && (!s.BeforeWait() ==> !t.BeforeWait() && t.returncode == s.returncode && Wait(0, false) !in es)
            && (s.BeforeWait() && !t.BeforeWait() ==> (t.returncode == 0 <==> Wait(0, false) in es))
    decreases |es|
  {
    if es != [] {
      StepSetsCode(c, s, es[0]);
      HistoryOfWait(c, Step(c, s, es[0]), es[1..]);
    }
  }

  /** The verdict is exact.  Whether or not reads raised, a finished run passes if and only if the
      clock never ran out, the child was reaped with exit code 0, and what was captured fits the cap. */
  lemma VerdictExactly(c: Config, es: seq<Event>)
    requires Runs(c, Init(c), es) && After(c, Init(c), es).consumer.Finished?
    ensures var s := After(c, Init(c), es);
            s.blockers == [] <==>
              ClockLate !in es && Wait(0, false) in es && |s.out.captured| <= c.cap && |s.err.captured| <= c.cap
  {
    RunKeepsInv(c, Init(c), es);
    HistoryOfFlags(c, Init(c), es);
    HistoryOfWait(c, Init(c), es);
    var s := After(c, Init(c), es);
    if s.blockers != [] {
      var b := s.blockers[0];
      assert b in s.blockers;
      assert b.OutputLimit? ==> b == OutputLimit(Stdout) || b == OutputLimit(Stderr);
    }
  }

  /** When no read raised, a finished run passes if and only if the clock never ran out, the child was
      reaped with exit code 0, and both outputs fit the cap. */
  lemma PassExactly(c: Config, es: seq<Event>)
    requires Runs(c, Init(c), es) && After(c, Init(c), es).consumer.Finished?
    requires ReadFails(Stdout) !in es && ReadFails(Stderr) !in es
    ensures After(c, Init(c), es).blockers == [] <==>
            ClockLate !in es && Wait(0, false) in es && |c.out| <= c.cap && |c.err| <= c.cap
  {
    VerdictExactly(c, es);
    HistoryOfFlags(c, Init(c), es);
    AlwaysBounded(c, es, Stdout);
    AlwaysBounded(c, es, Stderr);
    if After(c, Init(c), es).blockers == [] {
      PassIsComplete(c, es, Stdout);
      PassIsComplete(c, es, Stderr);
    }
  }

  /** Why `PassIsComplete` speaks of reads that did not raise: an error inside `stream.read` ends
      the stream like an end of file, and the run still passes with bytes missing. */
  lemma RaisedReadCanPass()
    ensures exists c: Config, es: seq<Event> ::
              && Runs(c, Init(c), es)
              && After(c, Init(c), es).consumer.Finished?
              && After(c, Init(c), es).blockers == []
              && After(c, Init(c), es).out.captured != c.out
  {
    var c := Config(10, [1], []);
    var es1, s1 := ReaderEnds(c, Init(c), ReadFails(Stdout));
    var es2, s2 := ReaderEnds(c, s1, ReadEof(Stderr));
    assert s2.queue == [Item(Stdout, End), Item(Stderr, End)];
    var es3, s3 := EndTaken(c, s2);
    var es4, s4 := EndTaken(c, s3);
    var es5, s5 := ClosingPasses(c, s4);
    RunsJoin(c, s3, es4, es5);
    RunsJoin(c, s2, es3, es4 + es5);
    RunsJoin(c, s1, es2, es3 + (es4 + es5));
    RunsJoin(c, Init(c), es1, es2 + (es3 + (es4 + es5)));
  }

  /** The four actions of a reader that finds its stream at an end, or fails to read it. */
  lemma ReaderEnds(c: Config, s: State, e: Event) returns (es: seq<Event>, s': State)
    requires e.ReadEof? || e.ReadFails?
    requires s.Of(e.n).reader.AtLoop? && !s.stopped && |s.queue| < QUEUE_SLOTS
    requires e.ReadEof? ==> s.Of(e.n).unread == []
    ensures Runs(c, s, es) && After(c, s, es) == s'
    ensures s' == s.With(e.n, s.Of(e.n).(reader := Done, failed := s.Of(e.n).failed || e.ReadFails?))
                   .(queue := s.queue + [Item(e.n, End)])
  {
    es := [TestStop(e.n), e, PutTest(e.n), PutOk(e.n)];
    FourSteps(c, s, es);
    s' := After(c, s, es);
  }

  lemma EndTaken(c: Config, s: State) returns (es: seq<Event>, s': State)
    requires s.consumer.AtHead? && !s.AllEnded() && s.queue != [] && s.queue[0].payload.End?
    ensures Runs(c, s, es) && After(c, s, es) == s'
    ensures s' == s.With(s.queue[0].name, s.Of(s.queue[0].name).(ended := true)).(queue := s.queue[1..])
  {
    es := [ClockOk, GetItem];
    var s1 := Step(c, s, ClockOk);
    assert es[1..] == [GetItem] && [GetItem][1..] == [];
    s' := Step(c, s1, GetItem);
    assert Runs(c, s1, [GetItem]) && After(c, s1, [GetItem]) == s';
  }

  lemma ClosingPasses(c: Config, s: State) returns (es: seq<Event>, s': State)
    requires s.consumer.AtHead? && s.AllEnded() && s.AllDone() && s.blockers == []
    ensures Runs(c, s, es) && After(c, s, es) == s'
    ensures s' == s.(consumer := Finished, stopped := true, returncode := 0)
  {
    es := [LoopExit, Wait(0, false), SetStop, Join];
    FourSteps(c, s, es);
    s' := After(c, s, es);
  }

  lemma NoSteps(c: Config, s: State, es: seq<Event>)
    requires es == []
    ensures Runs(c, s, es) && After(c, s, es) == s
  {
  }

  lemma OneStep(c: Config, s: State, es: seq<Event>)
    requires es != [] && Enabled(s, es[0]) && Runs(c, Step(c, s, es[0]), es[1..])
    ensures Runs(c, s, es) && After(c, s, es) == After(c, Step(c, s, es[0]), es[1..])
  {
  }

  lemma FourSteps(c: Config, s: State, es: seq<Event>)
    requires |es| == 4
    requires Enabled(s, es[0])
    requires Enabled(Step(c, s, es[0]), es[1])
    requires Enabled(Step(c, Step(c, s, es[0]), es[1]), es[2])
    requires Enabled(Step(c, Step(c, Step(c, s, es[0]), es[1]), es[2]), es[3])
    ensures Runs(c, s, es)
    ensures After(c, s, es) == Step(c, Step(c, Step(c, Step(c, s, es[0]), es[1]), es[2]), es[3])
  {
    var s1 := Step(c, s, es[0]);
    var s2 := Step(c, s1, es[1]);
    var s3 := Step(c, s2, es[2]);
    var s4 := Step(c, s3, es[3]);
    NoSteps(c, s4, es[4..]);
    assert es[3..][0] == es[3] && es[3..][1..] == es[4..];
    OneStep(c, s3, es[3..]);
    assert es[2..][0] == es[2] && es[2..][1..] == es[3..];
    OneStep(c, s2, es[2..]);
    assert es[1..][0] == es[1] && es[1..][1..] == es[2..];
    OneStep(c, s1, es[1..]);
    OneStep(c, s, es);
  }

  lemma {:induction false} RunsJoin(c: Config, s: State, es: seq<Event>, fs: seq<Event>)
    requires Runs(c, s, es) && Runs(c, After(c, s, es), fs)
    ensures Runs(c, s, es + fs) && After(c, s, es + fs) == After(c, After(c, s, es), fs)
    decreases |es|
  {
    if es == [] {
      assert es + fs == fs;
    } else {
      var gs := es + fs;
      assert gs[0] == es[0] && gs[1..] == es[1..] + fs;
      RunsJoin(c, Step(c, s, es[0]), es[1..], fs);
    }
  }
}
