/** The shared variables of the capture protocol, updated in place. */
module CaptureSession {
  // Every atomic action of a thread is a method, and each of them performs exactly the step of the
  // protocol model.

  import opened Capture

  predicate ForBoth<T>(m: map<Stream, T>) {
    Stdout in m && Stderr in m
  }

  class Session {
    const config: Config
    var captured: map<Stream, Bytes>    // the two byte arrays of the consumer
    var ended: map<Stream, bool>
    var queue: seq<Item>
    var stopped: bool
    var readers: map<Stream, Reader>    // where the reader threads stand
    var unread: map<Stream, Bytes>      // what the pipes will still deliver
    var failed: map<Stream, bool>
    var consumer: Consumer
    var returncode: int
    var blockers: seq<Blocker>

    predicate Shaped()
      reads this
    {
      ForBoth(captured) && ForBoth(ended) && ForBoth(readers) && ForBoth(unread) && ForBoth(failed)
    }

    function SideOf(n: Stream): Side
      requires Shaped()
      reads this
    {
      assert n.Stdout? || n.Stderr?;
      Side(readers[n], unread[n], failed[n], captured[n], ended[n])
    }

    /** The state of the protocol model. */
    function Abstract(): State
      requires Shaped()
      reads this
    {
      State(SideOf(Stdout), SideOf(Stderr), queue, stopped, consumer, returncode, blockers)
    }

    constructor (c: Config)
      ensures Shaped() && config == c && Abstract() == Init(c)
    {
      config := c;
      captured, ended := map[Stdout := [], Stderr := []], map[Stdout := false, Stderr := false];
      queue, stopped := [], false;
      readers := map[Stdout := AtLoop, Stderr := AtLoop];
      unread, failed := map[Stdout := c.out, Stderr := c.err], map[Stdout := false, Stderr := false];
      consumer, returncode, blockers := AtHead, 0, [];
    }

    /** The loop test of `_read_stream`. */
    method TestReader(n: Stream)
      requires Shaped() && Enabled(Abstract(), TestStop(n))
      modifies this
      ensures Shaped() && Abstract() == Step(config, old(Abstract()), TestStop(n))
    {
      readers := readers[n := if stopped then AtPut(End) else Reading];
    }

    /** A read of `_read_stream` that returns a chunk. */
    method ReadStream(n: Stream, size: nat)
      requires Shaped() && Enabled(Abstract(), ReadChunk(n, size))
      modifies this
      ensures Shaped() && Abstract() == Step(config, old(Abstract()), ReadChunk(n, size))
    {
      assert n.Stdout? || n.Stderr?;
      var bytes := unread[n];
      readers := readers[n := AtPut(Chunk(bytes[..size]))];
      unread := unread[n := bytes[size..]];
    }

    /** A read of `_read_stream` that finds the end of the stream, or raises. */
    method EndStream(e: Event)
      requires Shaped() && Enabled(Abstract(), e)
      requires e.ReadEof? || e.ReadFails?
      modifies this
      ensures Shaped() && Abstract() == Step(config, old(Abstract()), e)
    {
      readers := readers[e.n := AtPut(End)];
      if e.ReadFails? {
        failed := failed[e.n := true];
      }
    }

    /** One action inside `_put_stream`: the loop test, or a put that succeeds or finds the queue full. */
    method PutStream(e: Event)
      requires Shaped() && Enabled(Abstract(), e)
      requires e.PutTest? || e.PutOk? || e.PutFull?
      modifies this
      ensures Shaped() && Abstract() == Step(config, old(Abstract()), e)
    {
      var n := e.n;
      var payload := readers[n].payload;
      match e {
        case PutTest(_) =>
          readers := readers[n := if stopped then AfterPut(payload) else Putting(payload)];
        case PutOk(_) =>
          queue := queue + [Item(n, payload)];
          readers := readers[n := AfterPut(payload)];
        case PutFull(_) =>
          readers := readers[n := AtPut(payload)];
      }
    }

    /** The head of the consumer's loop: both streams ended, the deadline passed, or go on. */
    method TestLoop(e: Event)
      requires Shaped() && Enabled(Abstract(), e)
      requires e.LoopExit? || e.ClockLate? || e.ClockOk?
      modifies this
      ensures Shaped() && Abstract() == Step(config, old(Abstract()), e)
    {
      if e.LoopExit? {
        consumer := Cleanup;
      } else if e.ClockLate? {
        blockers := blockers + [Timeout];
        consumer := Cleanup;
      } else {
        consumer := Getting;
      }
    }

    /** Taking an item from the queue: an end marker, or a chunk that may break the cap. */
    method Get()
      requires Shaped() && Enabled(Abstract(), GetItem)
      modifies this
      ensures Shaped() && Abstract() == Step(config, old(Abstract()), GetItem)
    {
      var Item(n, payload) := queue[0];
      assert n.Stdout? || n.Stderr?;
      queue := queue[1..];
      consumer := AtHead;
      match payload {
        case End =>
          ended := ended[n := true];
        case Chunk(bytes) =>
          captured := captured[n := captured[n] + bytes];
          if |captured[n]| > config.cap {
            blockers := blockers + [OutputLimit(n)];
            consumer := Cleanup;
          }
      }
    }

    /** The end of `_run_bounded`: wait for the child, raise the stop flag, join the readers, judge. */
    method Finish(e: Event)
      requires Shaped() && Enabled(Abstract(), e)
      requires e.Wait? || e.SetStop? || e.Join?
      modifies this
      ensures Shaped() && Abstract() == Step(config, old(Abstract()), e)
    {
      match e {
        case Wait(code, lost) =>
          returncode := code;
          if lost {
            returncode := -9;
            blockers := blockers + [ProcessCleanupFailed];
          }
          consumer := Stopping;
        case SetStop =>
          stopped := true;
          consumer := Joining;
        case Join =>
          if !(readers[Stdout].Done? && readers[Stderr].Done?) {
            blockers := blockers + [ReaderCleanupFailed];
          }
          if returncode != 0 && blockers == [] {
            blockers := blockers + [CommandFailed(returncode)];
          }
          consumer := Finished;
      }
    }

    /** Any action of any thread. */
    method Perform(e: Event)
      requires Shaped() && Enabled(Abstract(), e)
      modifies this
      ensures Shaped() && Abstract() == Step(config, old(Abstract()), e)
    {
      match e {
        case TestStop(n) => TestReader(n);
        case ReadChunk(n, size) => ReadStream(n, size);
        case ReadEof(_) => EndStream(e);
        case ReadFails(_) => EndStream(e);
        case PutTest(_) => PutStream(e);
        case PutOk(_) => PutStream(e);
        case PutFull(_) => PutStream(e);
        case LoopExit => TestLoop(e);
        case ClockLate => TestLoop(e);
        case ClockOk => TestLoop(e);
        case GetItem => Get();
        case GetEmpty => consumer := AtHead;
        case Wait(_, _) => Finish(e);
        case SetStop => Finish(e);
        case Join => Finish(e);
        case ConsumerIdle =>
        case ReaderIdle(_) =>
      }
    }

    /** Any interleaving: the shared variables end up where the protocol model ends up, so what holds of
        every run of the model holds of them. */
    method Play(es: seq<Event>)
      requires Shaped() && Runs(config, Abstract(), es)
      modifies this
      ensures Shaped() && Abstract() == After(config, old(Abstract()), es)
    {
      ghost var start := Abstract();
      for k := 0 to |es|
        invariant Shaped() && Runs(config, Abstract(), es[k..])
        invariant After(config, Abstract(), es[k..]) == After(config, start, es)
      {
        assert es[k..][0] == es[k] && es[k..][1..] == es[k + 1..];
        Perform(es[k]);
      }
    }

    /** One action, added to the history of the run. */
    method Act(e: Event, ghost es: seq<Event>) returns (ghost es': seq<Event>)
      requires Shaped() && Reached(es) && Enabled(Abstract(), e)
      modifies this
      ensures Shaped() && Reached(es') && consumer == Step(config, old(Abstract()), e).consumer
      ensures returncode == Step(config, old(Abstract()), e).returncode
    {
      Perform(e);
      es' := es + [e];
      OneMore(config, Init(config), es, e);
    }

    /** The shared variables are what the history leads to. */
    ghost predicate Reached(es: seq<Event>)
      requires Shaped()
      reads this
    {
      Runs(config, Init(config), es) && Abstract() == After(config, Init(config), es)
    }

    /** What the reader threads do meanwhile: any actions of theirs, as far as they are possible. */
    method Meanwhile(actions: seq<Event>, ghost es: seq<Event>) returns (ghost es': seq<Event>)
      requires Shaped() && Reached(es)
      modifies this
      ensures Shaped() && Reached(es') && consumer == old(consumer) && returncode == old(returncode)
    {
      es' := es;
      for k := 0 to |actions|
        invariant Shaped() && Reached(es') && consumer == old(consumer) && returncode == old(returncode)
      {
        if ActorOf(actions[k]).ReaderOf? && Enabled(Abstract(), actions[k]) {
          es' := Act(actions[k], es');
        }
      }
    }

    /** One turn of the consumer's loop, the readers acting before the test and before the queue is read. */
    method Turn(late: bool, before: seq<Event>, between: seq<Event>, ghost es: seq<Event>) returns (ghost es': seq<Event>)
      requires Shaped() && Reached(es) && consumer.AtHead?
      modifies this
      ensures Shaped() && Reached(es') && (consumer.AtHead? || consumer.Cleanup?)
      ensures late ==> consumer.Cleanup?
    {
      es' := Meanwhile(before, es);
      if ended[Stdout] && ended[Stderr] {
        es' := Act(LoopExit, es');
      } else if late {
        es' := Act(ClockLate, es');
      } else {
        es' := Act(ClockOk, es');
        es' := Meanwhile(between, es');
        es' := Take(es');
      }
    }

    /** Reading the queue, which may time out. */
    method Take(ghost es: seq<Event>) returns (ghost es': seq<Event>)
      requires Shaped() && Reached(es) && consumer.Getting?
      modifies this
      ensures Shaped() && Reached(es') && (consumer.AtHead? || consumer.Cleanup?)
    {
      if queue == [] {
        es' := Act(GetEmpty, es);
      } else {
        es' := Act(GetItem, es);
      }
    }

    /** The consumer's loop of `_run_bounded`: until both streams ended, the deadline passed, or an output
        broke the cap.  `readers` is what the threads do before each of its actions, `late` what the
        clock says; it is late from `deadline` on, so the loop ends. */
    method Loop(readers: nat -> seq<Event>, late: nat -> bool, deadline: nat, ghost es: seq<Event>)
      returns (ghost es': seq<Event>, turns: nat)
      requires Shaped() && Reached(es) && consumer.AtHead?
      requires forall i :: i >= deadline ==> late(i)
      modifies this
      ensures Shaped() && Reached(es') && consumer.Cleanup?
    {
      es' := es;
      turns := 0;
      while consumer.AtHead?
        invariant Shaped() && Reached(es') && (consumer.AtHead? || consumer.Cleanup?)
        invariant turns > deadline ==> consumer.Cleanup?
        decreases deadline + 1 - turns
      {
        es' := Turn(late(turns), readers(2 * turns), readers(2 * turns + 1), es');
        turns := turns + 1;
      }
    }

    /** The child is reaped. */
    method Reap(actions: seq<Event>, code: int, lost: bool, ghost es: seq<Event>) returns (ghost es': seq<Event>)
      requires Shaped() && Reached(es) && consumer.Cleanup?
      modifies this
      ensures Shaped() && Reached(es') && consumer.Stopping? && returncode == if lost then -9 else code
    {
      es' := Meanwhile(actions, es);
      es' := Act(Wait(code, lost), es');
    }

    /** The stop flag is raised. */
    method RaiseStop(actions: seq<Event>, ghost es: seq<Event>) returns (ghost es': seq<Event>)
      requires Shaped() && Reached(es) && consumer.Stopping?
      modifies this
      ensures Shaped() && Reached(es') && consumer.Joining? && returncode == old(returncode)
    {
      es' := Meanwhile(actions, es);
      es' := Act(SetStop, es');
    }

    /** The readers are joined, and the verdict is given. */
    method JoinReaders(actions: seq<Event>, ghost es: seq<Event>) returns (ghost es': seq<Event>)
      requires Shaped() && Reached(es) && consumer.Joining?
      modifies this
      ensures Shaped() && Reached(es') && consumer.Finished? && returncode == old(returncode)
    {
      es' := Meanwhile(actions, es);
      es' := Act(Join, es');
    }

    lemma LosesNothing(es: seq<Event>)
      requires Shaped() && Reached(es) && consumer.Finished? && blockers == []
      ensures returncode == 0
      ensures forall n: Stream :: SideOf(n).captured + SideOf(n).unread == config.Produced(n)
    {
      forall n: Stream ensures SideOf(n).captured + SideOf(n).unread == config.Produced(n) {
        PassIsComplete(config, es, n);
        assert Abstract().Of(n) == SideOf(n);
      }
      PassIsComplete(config, es, Stdout);
    }

    /** No read of either stream raised. */
    ghost predicate NoneRaised(es: seq<Event>) {
      ReadFails(Stdout) !in es && ReadFails(Stderr) !in es
    }

    /** The verdict over the shared variables. */
    lemma VerdictIsExact(es: seq<Event>)
      requires Shaped() && Reached(es) && consumer.Finished?
      ensures blockers == [] <==>
                ClockLate !in es && returncode == 0 && |captured[Stdout]| <= config.cap && |captured[Stderr]| <= config.cap
      ensures NoneRaised(es) ==>
                (blockers == [] <==>
                   ClockLate !in es && returncode == 0 && |config.out| <= config.cap && |config.err| <= config.cap)
    {
      VerdictExactly(config, es);
      HistoryOfWait(config, Init(config), es);
      if NoneRaised(es) {
        PassExactly(config, es);
      }
    }

    /** `_run_bounded` once the readers are started, the readers acting at any time in between.  It always
        finishes, whatever they do; the result is without blockers if and only if the clock never ran out,
        the child was reaped with exit code 0 and the buffers fit the cap - and when no read raised, if and
        only if the outputs do; it lost nothing that was read. */
    method RunBounded(readers: nat -> seq<Event>, late: nat -> bool, deadline: nat, code: int, lost: bool)
      returns (ghost es: seq<Event>)
      requires Shaped() && Abstract() == Init(config)
      requires forall i :: i >= deadline ==> late(i)
      modifies this
      ensures Shaped() && Reached(es) && consumer.Finished? && returncode == if lost then -9 else code
      ensures blockers == [] <==>
                ClockLate !in es && returncode == 0 && |captured[Stdout]| <= config.cap && |captured[Stderr]| <= config.cap
      ensures NoneRaised(es) ==>
                (blockers == [] <==>
                   ClockLate !in es && returncode == 0 && |config.out| <= config.cap && |config.err| <= config.cap)
      ensures blockers == [] ==> forall n: Stream :: SideOf(n).captured + SideOf(n).unread == config.Produced(n)
    {
      es := [];
      var turns;
      es, turns := Loop(readers, late, deadline, es);
      es := Reap(readers(2 * turns), code, lost, es);
      es := RaiseStop(readers(2 * turns + 1), es);
      es := JoinReaders(readers(2 * turns + 2), es);
      VerdictIsExact(es);
      if blockers == [] {
        LosesNothing(es);
      }
    }
  }

  lemma OneMore(c: Config, s: State, es: seq<Event>, e: Event)
    requires Runs(c, s, es) && Enabled(After(c, s, es), e)
    ensures Runs(c, s, es + [e]) && After(c, s, es + [e]) == Step(c, After(c, s, es), e)
  {
    var t := After(c, s, es);
    assert Runs(c, Step(c, t, e), [e][1..]);
    RunsJoin(c, s, es, [e]);
  }
}
