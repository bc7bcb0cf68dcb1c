/**
 * The worker's scheduling: `start`, `stop`, the timer callback and the end of a poll, run to
 * completion one at a time by the event loop in any order.  `stop` then waits for the poll it saw
 * in flight.
 */
module PollChain {
  import opened Basics

  type PollId = nat

  /** The three fields of the worker, and how many polls it has begun. */
  datatype Worker = Worker(running: bool, timer: bool, inFlight: Option<PollId>, begun: nat)

  // ---------------------------------------------------------------- the callbacks as functions

  function Scheduled(w: Worker): Worker {
    if !w.running || w.timer || w.inFlight.Some? then w else w.(timer := true)
  }

  function Started(w: Worker): Worker {
    if w.running then w else Scheduled(w.(running := true))
  }

  function Stopped(w: Worker): Worker {
    w.(running := false, timer := false)
  }

  function Fired(w: Worker): Worker {
    w.(timer := false, inFlight := Some(w.begun), begun := w.begun + 1)
  }

  function PollEnded(w: Worker): Worker {
    Scheduled(w.(inFlight := None))
  }

  /** A timer and a poll never coexist; a poll in flight is the latest one begun. */
  predicate OneChain(w: Worker) {
    && !(w.timer && w.inFlight.Some?)
    && (w.timer ==> w.running)
    && (w.inFlight.Some? ==> w.inFlight.value + 1 == w.begun)
    && (w.running ==> w.timer || w.inFlight.Some?)
  }

  /** The worker object: each callback changes the fields exactly as its function says. */
  class OutboxWorker {
    var running: bool
    var timer: bool
    var inFlight: Option<PollId>
    var begun: nat

    function State(): Worker
      reads this
    {
      Worker(running, timer, inFlight, begun)
    }

    constructor ()
      ensures State() == Worker(false, false, None, 0) && OneChain(State())
    {
      running, timer, inFlight, begun := false, false, None, 0;
    }

    method SchedulePoll()
      modifies this`timer
      ensures State() == Scheduled(old(State()))
    {
      if !running || timer || inFlight.Some? { return; }
      timer := true;
    }

    method Start()
      requires OneChain(State())
      modifies this`running, this`timer
      ensures State() == Started(old(State())) && OneChain(State())
      ensures running && (timer || inFlight.Some?)
      ensures old(running) ==> State() == old(State())
      ensures !old(running) ==> timer == inFlight.None?
    {
      if running { return; }
      running := true;
      SchedulePoll();
    }

    /** Up to the await: what is returned is the poll to wait for. */
    method Stop() returns (awaited: Option<PollId>)
      requires OneChain(State())
      modifies this`running, this`timer
      ensures State() == Stopped(old(State())) && OneChain(State())
      ensures !running && !timer
      ensures awaited == old(inFlight)
    {
      if running {
        running := false;
      }
      if timer {
        timer := false;
      }
      awaited := inFlight;
    }

    method TimerFired()
      requires OneChain(State()) && timer
      modifies this
      ensures State() == Fired(old(State())) && OneChain(State())
    {
      timer := false;
      inFlight := Some(begun);
      begun := begun + 1;
    }

    /** The finally block of the poll in flight. */
    method PollFinished()
      requires OneChain(State()) && inFlight.Some?
      modifies this
      ensures State() == PollEnded(old(State())) && OneChain(State())
    {
      inFlight := None;
      SchedulePoll();
    }
  }

  // ---------------------------------------------------------------- every interleaving

  /** A pending call of stop: the poll it waits for, and whether start was called since. */
  datatype Stopper = Stopper(awaited: Option<PollId>, restarted: bool)

  datatype System = System(worker: Worker, stoppers: map<nat, Stopper>)

  datatype Step = Start | CallStop(id: nat) | Fire | EndPoll | ResolveStop(id: nat)

  predicate Enabled(s: System, step: Step) {
    match step
    case Start => true
    case CallStop(id) => id !in s.stoppers
    case Fire => s.worker.timer
    case EndPoll => s.worker.inFlight.Some?
    case ResolveStop(id) => id in s.stoppers && Settled(s.worker, s.stoppers[id].awaited)
  }

  /** The awaited poll has ended (or there was none). */
  predicate Settled(w: Worker, awaited: Option<PollId>) {
    awaited.None? || (awaited.value < w.begun && w.inFlight != awaited)
  }

  function Apply(s: System, step: Step): System
    requires Enabled(s, step)
  {
    match step
    case Start => System(Started(s.worker), map id | id in s.stoppers :: s.stoppers[id].(restarted := true))
    case CallStop(id) => System(Stopped(s.worker), s.stoppers[id := Stopper(s.worker.inFlight, false)])
    case Fire => s.(worker := Fired(s.worker))
    case EndPoll => s.(worker := PollEnded(s.worker))
    case ResolveStop(id) => s.(stoppers := s.stoppers - {id})
  }

  predicate StepAt(states: seq<System>, steps: seq<Step>, i: nat)
    requires i < |steps| && |states| == |steps| + 1
  {
    Enabled(states[i], steps[i]) && states[i + 1] == Apply(states[i], steps[i])
  }

  ghost predicate IsRun(states: seq<System>, steps: seq<Step>) {
    && |states| == |steps| + 1
    && states[0] == System(Worker(false, false, None, 0), map[])
    && forall i :: 0 <= i < |steps| ==> StepAt(states, steps, i)
  }

  /** While stop waits and nobody restarts, the worker is off, and only the awaited poll can be in flight. */
  predicate StopperOk(w: Worker, stopper: Stopper) {
    && (stopper.awaited.Some? ==> stopper.awaited.value < w.begun)
    && (!stopper.restarted ==> !w.running && !w.timer && (w.inFlight.Some? ==> w.inFlight == stopper.awaited))
  }

  predicate Inv(s: System) {
    OneChain(s.worker) && forall id :: id in s.stoppers ==> StopperOk(s.worker, s.stoppers[id])
  }

  lemma {:induction false} Reachable(states: seq<System>, steps: seq<Step>, i: nat)
    requires IsRun(states, steps) && i <= |steps|
    ensures Inv(states[i])
  {
    if i > 0 {
      Reachable(states, steps, i - 1);
      assert StepAt(states, steps, i - 1);
      var s, s' := states[i - 1], states[i];
      forall id | id in s'.stoppers
        ensures StopperOk(s'.worker, s'.stoppers[id])
      {
        assert id in s.stoppers ==> StopperOk(s.worker, s.stoppers[id]);
      }
    }
  }

  /**
   * In every interleaving: no pending timer beside a poll in flight, and a running worker always has
   * one of the two.
   */
  lemma SingleChain(states: seq<System>, steps: seq<Step>)
    requires IsRun(states, steps)
    ensures var w := states[|steps|].worker;
      && !(w.timer && w.inFlight.Some?)
      && (w.running ==> w.timer || w.inFlight.Some?)
      && (w.timer ==> w.running)
  {
    Reachable(states, steps, |steps|);
  }

  /** A poll only ever begins when none is in flight, so at most one runs. */
  lemma PollsDoNotOverlap(states: seq<System>, steps: seq<Step>, i: nat)
    requires IsRun(states, steps) && i < |steps| && steps[i] == Fire
    ensures states[i].worker.inFlight == None && states[i + 1].worker.inFlight == Some(states[i].worker.begun)
  {
    Reachable(states, steps, i);
    assert StepAt(states, steps, i);
  }

  /**
   * A running worker goes on polling: its timer can fire and begins a poll, or its poll can end and
   * leaves it with a timer.  A worker that is off begins nothing and sets no timer.
   */
  lemma RunningKeepsPolling(states: seq<System>, steps: seq<Step>)
    requires IsRun(states, steps)
    ensures var s := states[|steps|];
      && (s.worker.running ==>
            if s.worker.timer
            then
              && Enabled(s, Fire)
              && Apply(s, Fire).worker ==
                   s.worker.(timer := false, inFlight := Some(s.worker.begun), begun := s.worker.begun + 1)
            else Enabled(s, EndPoll) && Apply(s, EndPoll).worker == s.worker.(timer := true, inFlight := None))
      && (!s.worker.running ==>
            && !Enabled(s, Fire)
            && (Enabled(s, EndPoll) ==> Apply(s, EndPoll).worker == s.worker.(inFlight := None)))
  {
    Reachable(states, steps, |steps|);
  }

  /** When stop resolves, no poll is in flight and none is scheduled, unless start was called since stop was. */
  lemma StopResolvesQuiet(states: seq<System>, steps: seq<Step>, i: nat, id: nat)
    requires IsRun(states, steps) && i < |steps| && steps[i] == ResolveStop(id)
    ensures id in states[i].stoppers
    ensures !states[i].stoppers[id].restarted ==>
      states[i + 1].worker.inFlight == None && !states[i + 1].worker.timer && !states[i + 1].worker.running
  {
    Reachable(states, steps, i);
    assert StepAt(states, steps, i);
    assert StopperOk(states[i].worker, states[i].stoppers[id]);
  }
}
