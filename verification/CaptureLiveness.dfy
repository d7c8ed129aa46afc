/** Every fair capture run finishes, and stopped readers leave. */
module CaptureLiveness {
  import opened Capture

  /** An infinite run: every state follows from the one before by the event chosen there. */
  ghost predicate InfiniteRun(c: Config, run: nat -> State, evs: nat -> Event) {
    && run(0) == Init(c)
    && forall i: nat :: Enabled(run(i), evs(i)) && run(i + 1) == Step(c, run(i), evs(i))
  }

  ghost predicate ActsFrom(a: Actor, i: nat, evs: nat -> Event) {
    exists j: nat :: i <= j && ActorOf(evs(j)) == a
  }

  /** Every thread gets to act again and again.  A thread inside `stream.read` acts by returning
      from it, so a fair run is also one in which the child's output is finite and delivered. */
  ghost predicate Fair(evs: nat -> Event) {
    forall a: Actor, i: nat :: ActsFrom(a, i, evs)
  }

  // ---------------------------------------------------------------- the variant

  /** Reads, puts and gets still to be made for one stream, if every read returned one byte. */
  function SideWork(side: Side): nat {
    match side.reader
    case Done => 0
    case AtLoop => 3 * |side.unread| + 3
    case Reading => 3 * |side.unread| + 3
    case AtPut(p) => if p.End? then 2 else 3 * |side.unread| + 5
    case Putting(p) => if p.End? then 2 else 3 * |side.unread| + 5
  }

  function Work(s: State): nat {
    SideWork(s.out) + SideWork(s.err) + |s.queue|
  }

  /** The thread whose next actions are sure to make progress. */
  function Helpful(s: State): Actor {
    if !s.InLoop() || s.queue != [] || s.AllEnded() then TheConsumer
    else if !s.out.reader.Done? then ReaderOf(Stdout)
    else ReaderOf(Stderr)
  }

  /** How many of its own actions the helpful thread needs before work is done. */
  function Phase(s: State): nat {
    match Helpful(s)
    case ReaderOf(n) => if s.Of(n).reader.AtLoop? || s.Of(n).reader.AtPut? then 1 else 0
    case TheConsumer =>
      if s.queue != [] then (if s.consumer.AtHead? then 1 else 0)
      else (if s.consumer.Getting? then 1 else 0)
  }

  function Rank(s: State): nat {
    match s.consumer
    case Finished => 0
    case Joining => 1
    case Stopping => 2
    case Cleanup => 3
    case _ => 4 + 2 * Work(s) + Phase(s)
  }

  predicate Progress(e: Event) {
    e.ReadChunk? || e.ReadEof? || e.ReadFails? || e.PutOk?
  }

  /** A read or a put uses up work; testing the flag or finding the queue full does not. */
  lemma MoveLowersWork(side: Side, e: Event)
    requires CanMove(side, e)
    ensures var put := if e.PutOk? then 1 else 0;
            var left := SideWork(Move(side, false, e));
            if Progress(e) then left + put < SideWork(side) else left == SideWork(side)
  {
  }

  /** While the queue is empty and a stream has not ended, some reader is still running. */
  lemma HelpfulReaderRuns(c: Config, s: State)
    requires Inv(c, s) && s.InLoop() && Helpful(s).ReaderOf?
    ensures s.queue == [] && !s.Of(Helpful(s).name).reader.Done?
  {
    assert Queued(s.queue, Stdout) == [] && Queued(s.queue, Stderr) == [];
  }

  lemma {:induction false} ReaderLowersRank(c: Config, s: State, e: Event)
    requires ActorOf(e).ReaderOf? && Enabled(s, e) && Inv(c, s) && s.InLoop()
    ensures var t := ReaderStep(s, e);
            && Rank(t) <= Rank(s)
            && (Rank(t) == Rank(s) ==> Helpful(t) == Helpful(s))
            && (ActorOf(e) == Helpful(s) ==> Rank(t) < Rank(s))
  {
    var t := ReaderStep(s, e);
    MoveLowersWork(s.Of(e.n), e);
    if Progress(e) {
      assert Work(t) < Work(s);
    } else {
      assert Work(t) == Work(s) && t.queue == s.queue;
      if Helpful(s).ReaderOf? {
        HelpfulReaderRuns(c, s);
      }
      assert Helpful(t) == Helpful(s);
    }
  }

  lemma ConsumerLowersRank(c: Config, s: State, e: Event)
    requires ActorOf(e).TheConsumer? && Enabled(s, e) && s.InLoop()
    ensures var t := Step(c, s, e);
            && Rank(t) <= Rank(s)
            && (Rank(t) == Rank(s) ==> Helpful(t) == Helpful(s))
            && (ActorOf(e) == Helpful(s) ==> Rank(t) < Rank(s))
  {
    var t := Step(c, s, e);
    if e.GetItem? {
      TakingLowersWork(c, s);
    } else {
      assert t.out == s.out && t.err == s.err && t.queue == s.queue;
    }
  }

  lemma TakingLowersWork(c: Config, s: State)
    requires s.queue != []
    ensures Work(Consume(c, s)) == Work(s) - 1
  {
    var Item(n, p) := s.queue[0];
    assert SideWork(Take(s.Of(n), p)) == SideWork(s.Of(n));
  }

  /** No step of any thread raises the rank, and a step of the helpful thread lowers it. */
  lemma StepLowersRank(c: Config, s: State, e: Event)
    requires Enabled(s, e) && Inv(c, s) && !s.consumer.Finished?
    ensures var t := Step(c, s, e);
            && Rank(t) <= Rank(s)
            && (Rank(t) == Rank(s) ==> Helpful(t) == Helpful(s))
            && (ActorOf(e) == Helpful(s) ==> Rank(t) < Rank(s))
  {
    if s.InLoop() {
      if ActorOf(e).ReaderOf? {
        ReaderLowersRank(c, s, e);
      } else {
        ConsumerLowersRank(c, s, e);
      }
    }
  }

  lemma {:induction false} RunInv(c: Config, run: nat -> State, evs: nat -> Event, i: nat)
    requires InfiniteRun(c, run, evs)
    ensures Inv(c, run(i))
  {
    if i == 0 {
      InitHolds(c);
    } else {
      RunInv(c, run, evs, i - 1);
      NextInRun(c, run, evs, i - 1);
      StepKeepsInv(c, run(i - 1), evs(i - 1));
    }
  }

  lemma InitHolds(c: Config)
    ensures Inv(c, Init(c))
  {
  }

  lemma NextInRun(c: Config, run: nat -> State, evs: nat -> Event, i: nat)
    requires InfiniteRun(c, run, evs)
    ensures Enabled(run(i), evs(i)) && run(i + 1) == Step(c, run(i), evs(i))
  {
  }

  /** Between `i` and the helpful thread's next action at `j`, the rank falls. */
  lemma {:induction false} RankFalls(c: Config, run: nat -> State, evs: nat -> Event, i: nat, j: nat) returns (k: nat)
    requires InfiniteRun(c, run, evs)
    requires i <= j && !run(i).consumer.Finished? && ActorOf(evs(j)) == Helpful(run(i))
    ensures i < k && Rank(run(k)) < Rank(run(i))
    decreases j - i
  {
    RunInv(c, run, evs, i);
    StepLowersRank(c, run(i), evs(i));
    k := i + 1;
    if Rank(run(k)) == Rank(run(i)) {
      k := RankFalls(c, run, evs, i + 1, j);
    }
  }

  lemma {:induction false} FinishesFrom(c: Config, run: nat -> State, evs: nat -> Event, i: nat) returns (k: nat)
    requires InfiniteRun(c, run, evs) && Fair(evs)
    ensures i <= k && run(k).consumer.Finished?
    decreases Rank(run(i))
  {
    k := i;
    if !run(i).consumer.Finished? {
      assert ActsFrom(Helpful(run(i)), i, evs);
      var j: nat :| i <= j && ActorOf(evs(j)) == Helpful(run(i));
      k := RankFalls(c, run, evs, i, j);
      k := FinishesFrom(c, run, evs, k);
    }
  }

  /** Liveness: on finite output, every fair run of `_run_bounded` reaches its verdict; polling
      an empty queue or retrying a full one can go on only while another thread is due. */
  lemma FairRunFinishes(c: Config, run: nat -> State, evs: nat -> Event)
    requires InfiniteRun(c, run, evs) && Fair(evs)
    ensures exists k: nat :: run(k).consumer.Finished?
  {
    var k := FinishesFrom(c, run, evs, 0);
  }

  // ---------------------------------------------------------------- after the stop flag

  /** Own actions a reader needs to leave once the stop flag is set. */
  function Leaving(r: Reader): nat {
    match r
    case Done => 0
    case AtLoop => 2
    case Reading => 4
    case AtPut(p) => if p.End? then 1 else 3
    case Putting(p) => if p.End? then 2 else 4
  }

  /** Whether the event is an action of stream `n`'s reader before its end. */
  predicate OwnAction(e: Event, n: Stream) {
    ActorOf(e) == ReaderOf(n) && !e.ReaderIdle?
  }

  /** The actions stream `n`'s reader takes in `es`. */
  function OwnActions(es: seq<Event>, n: Stream): nat {
    if es == [] then 0 else (if OwnAction(es[0], n) then 1 else 0) + OwnActions(es[1..], n)
  }

  lemma ActionLeaves(c: Config, s: State, e: Event, n: Stream)
    requires Enabled(s, e) && s.stopped
    ensures Step(c, s, e).stopped
    ensures Leaving(Step(c, s, e).Of(n).reader) + (if OwnAction(e, n) then 1 else 0) <= Leaving(s.Of(n).reader)
  {
    if ActorOf(e).ReaderOf? && e.n == n {
      MoveLeaves(s.Of(n), e);
    }
  }

  lemma MoveLeaves(side: Side, e: Event)
    requires CanMove(side, e)
    ensures Leaving(Move(side, true, e).reader) + (if e.ReaderIdle? then 0 else 1) <= Leaving(side.reader)
  {
  }

  lemma {:induction false} LeavesInTime(c: Config, s: State, es: seq<Event>, n: Stream)
    requires Runs(c, s, es) && s.stopped
    ensures After(c, s, es).stopped
    ensures Leaving(After(c, s, es).Of(n).reader) + OwnActions(es, n) <= Leaving(s.Of(n).reader)
    decreases |es|
  {
    if es != [] {
      ActionLeaves(c, s, es[0], n);
      LeavesInTime(c, Step(c, s, es[0]), es[1..], n);
    }
  }

  /** All actions of stream `n`'s reader thread in `es`, idle turns after its end included. */
  function AllActions(es: seq<Event>, n: Stream): nat {
    if es == [] then 0
    else (if ActorOf(es[0]) == ReaderOf(n) then 1 else 0) + AllActions(es[1..], n)
  }

  lemma {:induction false} LeavesWhenDue(c: Config, s: State, es: seq<Event>, n: Stream)
    requires Runs(c, s, es) && s.stopped
    ensures AllActions(es, n) >= Leaving(s.Of(n).reader) ==> After(c, s, es).Of(n).reader.Done?
    decreases |es|
  {
    if es != [] {
      ActionLeaves(c, s, es[0], n);
      LeavesWhenDue(c, Step(c, s, es[0]), es[1..], n);
    }
  }

  /** Once the stop flag is set, a reader that is not held up inside `stream.read` leaves as soon as its
      thread has acted as often as its place in the loop requires, which is four times at most, whatever
      the other threads do and even if the queue stays full.  When both threads have done so, the join
      finds neither alive. */
  lemma StoppedReadersLeave(c: Config, s: State, es: seq<Event>)
    requires Runs(c, s, es) && s.stopped
    ensures forall n: Stream ::
              && Leaving(s.Of(n).reader) <= 4
              && OwnActions(es, n) <= Leaving(s.Of(n).reader)
              && (AllActions(es, n) >= Leaving(s.Of(n).reader) ==> After(c, s, es).Of(n).reader.Done?)
    ensures var t := After(c, s, es);
            AllActions(es, Stdout) >= Leaving(s.out.reader) && AllActions(es, Stderr) >= Leaving(s.err.reader) ==>
              t.AllDone() && (ReaderCleanupFailed !in t.blockers ==> ReaderCleanupFailed !in Verdict(t))
  {
    forall n: Stream
      ensures OwnActions(es, n) <= Leaving(s.Of(n).reader)
              && (AllActions(es, n) >= Leaving(s.Of(n).reader) ==> After(c, s, es).Of(n).reader.Done?)
    {
      LeavesInTime(c, s, es, n);
      LeavesWhenDue(c, s, es, n);
    }
  }

  // ---------------------------------------------------------------- the deadline

  /** The consumer gets to act again and again; nothing is asked of the readers. */
  ghost predicate ConsumerActs(evs: nat -> Event) {
    forall i: nat :: ActsFrom(TheConsumer, i, evs)
  }

  /** From `d` on the consumer never finds the clock in time. */
  ghost predicate LateFrom(evs: nat -> Event, d: nat) {
    forall i: nat :: i >= d ==> !evs(i).ClockOk?
  }

  /** The consumer's own actions up to the verdict, once the clock is late. */
  function Remaining(k: Consumer): nat {
    match k
    case Getting => 5
    case AtHead => 4
    case Cleanup => 3
    case Stopping => 2
    case Joining => 1
    case Finished => 0
  }

  lemma {:induction false} ConsumerMoves(c: Config, run: nat -> State, evs: nat -> Event, d: nat, i: nat, j: nat) returns (k: nat)
    requires InfiniteRun(c, run, evs) && LateFrom(evs, d) && d <= i <= j
    requires ActorOf(evs(j)).TheConsumer? && !run(i).consumer.Finished?
    ensures i < k && Remaining(run(k).consumer) < Remaining(run(i).consumer)
    decreases j - i
  {
    assert Enabled(run(i), evs(i)) && run(i + 1) == Step(c, run(i), evs(i));
    if ActorOf(evs(i)).TheConsumer? {
      k := i + 1;
    } else {
      assert run(i + 1).consumer == run(i).consumer;
      k := ConsumerMoves(c, run, evs, d, i + 1, j);
    }
  }

  lemma {:induction false} LateFinishesFrom(c: Config, run: nat -> State, evs: nat -> Event, d: nat, i: nat) returns (k: nat)
    requires InfiniteRun(c, run, evs) && ConsumerActs(evs) && LateFrom(evs, d) && d <= i
    ensures i <= k && run(k).consumer.Finished?
    decreases Remaining(run(i).consumer)
  {
    if run(i).consumer.Finished? {
      k := i;
    } else {
      assert ActsFrom(TheConsumer, i, evs);
      var j: nat :| i <= j && ActorOf(evs(j)) == TheConsumer;
      var m := ConsumerMoves(c, run, evs, d, i, j);
      k := LateFinishesFrom(c, run, evs, d, m);
    }
  }

  /** The deadline works: when the clock is late from some point on, the run reaches its verdict however
      much the child writes and whatever the readers do, even if a read never returns. */
  lemma LateRunFinishes(c: Config, run: nat -> State, evs: nat -> Event, d: nat)
    requires InfiniteRun(c, run, evs) && ConsumerActs(evs) && LateFrom(evs, d)
    ensures exists k: nat :: run(k).consumer.Finished?
  {
    var k := LateFinishesFrom(c, run, evs, d, d);
  }
}
