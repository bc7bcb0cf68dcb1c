/** What workers that overrun their leases can do to an event. */
module LeaseOverruns {
  import opened Delivery
  import opened DeliveryTheorems

  // ---------------------------------------------------------------- one claim

  /** A worker claims one event, from BEGIN to COMMIT. */
  function ClaimActs(w: WorkerId, e: EventId): seq<Action> {
    [BeginClaim(w), LockEvent(w, e), CommitClaim(w)]
  }

  function AfterClaim(s: State, w: WorkerId, e: EventId): State
    requires e in s.outbox && e in s.marks
  {
    s.(outbox := s.outbox[e := ClaimRow(s.outbox[e], s.clock, s.lease)],
       marks := s.marks[e := s.marks[e] + [Claimed(s.clock)]],
       workers := s.workers[w := Busy([Claim(e, s.outbox[e].attempts + 1)], Fresh)])
  }

  predicate Claimable(s: State, e: EventId) {
    e in s.outbox && e in s.marks && Eligible(s.outbox[e], s.clock) && !EventLocked(s, e) && s.batchSize > 0
  }

  lemma LockOne(s: State, w: WorkerId, e: EventId)
    requires Claimable(s, e) && w !in s.workers
    ensures var begun := SetWorker(s, w, Claiming(s.clock, []));
      && Enabled(begun, LockEvent(w, e))
      && Apply(begun, LockEvent(w, e)) == SetWorker(s, w, Claiming(s.clock, [e]))
  {
    var begun := SetWorker(s, w, Claiming(s.clock, []));
    assert forall v :: v in begun.workers && v != w ==> begun.workers[v] == s.workers[v];
    assert [] + [e] == [e];
    assert begun.workers[w := Claiming(s.clock, [e])] == s.workers[w := Claiming(s.clock, [e])];
  }

  lemma CommitOne(s: State, w: WorkerId, e: EventId)
    requires e in s.outbox && e in s.marks
    ensures Apply(SetWorker(s, w, Claiming(s.clock, [e])), CommitClaim(w)) == AfterClaim(s, w, e)
  {
    var t, a := ClaimLocked(SetWorker(s, w, Claiming(s.clock, [e])), w), AfterClaim(s, w, e);
    assert t.outbox == a.outbox && t.marks == a.marks;
    assert Claims(s.outbox, [e]) == [Claim(e, s.outbox[e].attempts + 1)];
    assert t.workers == a.workers;
  }

  lemma ClaimOne(s: State, w: WorkerId, e: EventId)
    requires Claimable(s, e) && w !in s.workers
    ensures Leads(s, ClaimActs(w, e), AfterClaim(s, w, e))
  {
    hide Leads, ClaimLocked, AfterClaim, EventLocked, Eligible;
    var begun, locked := SetWorker(s, w, Claiming(s.clock, [])), SetWorker(s, w, Claiming(s.clock, [e]));
    LockOne(s, w, e);
    CommitOne(s, w, e);
    LeadsOne(s, BeginClaim(w));
    LeadsThen(s, [BeginClaim(w)], begun, LockEvent(w, e));
    LeadsThen(s, [BeginClaim(w)] + [LockEvent(w, e)], locked, CommitClaim(w));
    assert [BeginClaim(w)] + [LockEvent(w, e)] + [CommitClaim(w)] == ClaimActs(w, e);
  }

  // ---------------------------------------------------------------- without the leases there is no bound

  /** Every worker dies. */
  lemma {:induction false} AllDie(s: State) returns (acts: seq<Action>)
    ensures Leads(s, acts, s.(workers := map[]))
    ensures forall a :: a in acts ==> a.Abandon?
    decreases s.workers.Keys
  {
    if s.workers == map[] {
      acts := [];
    } else {
      var w :| w in s.workers;
      var rest := AllDie(Apply(s, Abandon(w)));
      LeadsOne(s, Abandon(w));
      LeadsOn(s, [Abandon(w)], Apply(s, Abandon(w)), rest, s.(workers := map[]));
      acts := [Abandon(w)] + rest;
    }
  }

  /** No worker is there, and the event's next attempt has a time. */
  predicate Waiting(s: State, e: EventId) {
    && s.workers == map[] && s.batchSize > 0 && e in s.outbox && e in s.marks
    && s.outbox[e].status != Processed && s.outbox[e].due != Never
  }

  /** The time until the event falls due. */
  function Wait(s: State, e: EventId): nat
    requires e in s.outbox
  {
    if s.outbox[e].due.At? && s.outbox[e].due.time > s.clock then s.outbox[e].due.time - s.clock else 0
  }

  /** The event falls due, a worker claims it and dies. */
  lemma OneMore(s: State, e: EventId)
    requires Waiting(s, e)
    ensures var late := s.(clock := s.clock + Wait(s, e));
      && Waiting(AfterClaim(late, 0, e).(workers := map[]), e)
      && Leads(s, [Tick(Wait(s, e))] + ClaimActs(0, e) + [Abandon(0)], AfterClaim(late, 0, e).(workers := map[]))
  {
    hide Leads;
    var late := s.(clock := s.clock + Wait(s, e));
    var held := AfterClaim(late, 0, e);
    LeadsOne(s, Tick(Wait(s, e)));
    ClaimOne(late, 0, e);
    LeadsOn(s, [Tick(Wait(s, e))], late, ClaimActs(0, e), held);
    LeadsThen(s, [Tick(Wait(s, e))] + ClaimActs(0, e), held, Abandon(0));
    assert held.workers - {0} == map[];
  }

  lemma {:induction false} ManyMore(s: State, e: EventId, n: nat) returns (acts: seq<Action>, t: State)
    requires Waiting(s, e) && n >= s.outbox[e].attempts
    ensures Leads(s, acts, t) && Replay(e) !in acts && e in t.outbox && t.outbox[e].attempts == n
    decreases n - s.outbox[e].attempts
  {
    hide Enabled, Apply;
    if n == s.outbox[e].attempts {
      acts, t := [], s;
    } else {
      OneMore(s, e);
      var first := [Tick(Wait(s, e))] + ClaimActs(0, e) + [Abandon(0)];
      var next := AfterClaim(s.(clock := s.clock + Wait(s, e)), 0, e).(workers := map[]);
      acts, t := ManyMore(next, e, n);
      LeadsOn(s, first, next, acts, t);
      acts := first + acts;
    }
  }

  /** Without a replay of it, the event can still come to exactly `n` attempts. */
  ghost predicate CanReach(s: State, e: EventId, n: nat) {
    exists acts, t :: Leads(s, acts, t) && Replay(e) !in acts && e in t.outbox && t.outbox[e].attempts == n
  }

  lemma UnfinishedReaches(s: State, e: EventId, n: nat)
    requires Waiting(s.(workers := map[]), e) && n >= s.outbox[e].attempts
    ensures CanReach(s, e, n)
  {
    hide Leads;
    var idle := s.(workers := map[]);
    var first := AllDie(s);
    var rest, t := ManyMore(idle, e, n);
    LeadsOn(s, first, idle, rest, t);
    assert Replay(e) !in first + rest;
  }

  // ---------------------------------------------------------------- a finished event never grows

  predicate Finished(row: Event) {
    row.status == Processed || Parked(row)
  }

  /** Finished as `row` says, or purged after that. */
  predicate FinishedAs(s: State, e: EventId, row: Event) {
    e in s.written && (e in s.outbox ==> s.outbox[e] == row)
  }

  lemma FinishedStep(s: State, a: Action, e: EventId, row: Event)
    requires Inv(s) && Enabled(s, a) && a != Replay(e) && Finished(row) && FinishedAs(s, e, row)
    ensures FinishedAs(Apply(s, a), e, row)
  {
    hide Inv;
    if e in s.outbox {
      if Parked(row) {
        ParkedStays(s, a, e);
      } else if !PurgesEvent(a, e, row) {
        ProcessedStays(s, a, e);
      }
    }
  }

  lemma {:induction false} FinishedStays(s: State, acts: seq<Action>, t: State, e: EventId, row: Event)
    requires Inv(s) && Leads(s, acts, t) && Replay(e) !in acts && Finished(row) && FinishedAs(s, e, row)
    ensures FinishedAs(t, e, row)
    decreases |acts|
  {
    hide Inv, Enabled, Apply, FinishedAs, Finished;
    if acts != [] {
      assert acts[0] in acts && forall a :: a in acts[1..] ==> a in acts;
      FinishedStep(s, acts[0], e, row);
      NextKeepsInv(s, acts[0]);
      FinishedStays(Apply(s, acts[0]), acts[1..], t, e, row);
    }
  }

  // ---------------------------------------------------------------- exactly which events have no bound

  /** Only parking sets a row's next attempt to infinity. */
  predicate NeverIsParked(s: State) {
    forall e :: e in s.outbox && s.outbox[e].due == Never ==> s.outbox[e].status == Failed
  }

  lemma NeverStep(s: State, a: Action)
    requires NeverIsParked(s) && Enabled(s, a)
    ensures NeverIsParked(Apply(s, a))
  {
  }

  lemma {:induction false} NeverReachable(states: seq<State>, actions: seq<Action>, i: nat)
    requires IsRun(states, actions) && i <= |actions|
    ensures NeverIsParked(states[i])
  {
    hide Enabled, Apply;
    if i > 0 {
      NeverReachable(states, actions, i - 1);
      assert StepAt(states, actions, i - 1);
      NeverStep(states[i - 1], actions[i - 1]);
    }
  }

  /**
   * Whatever the maximum: in any reachable state the attempts of an event can, without a replay of
   * it, still grow to any number if and only if its row is neither processed nor parked.
   */
  lemma AttemptsGrowIff(states: seq<State>, actions: seq<Action>, e: EventId, n: nat)
    requires IsRun(states, actions) && e in states[|actions|].outbox && states[|actions|].batchSize > 0
    requires n > states[|actions|].outbox[e].attempts
    ensures CanReach(states[|actions|], e, n) <==> !Finished(states[|actions|].outbox[e])
  {
    hide Leads;
    var s := states[|actions|];
    Reachable(states, actions, |actions|);
    NeverReachable(states, actions, |actions|);
    assert EventOk(s, e);
    if !Finished(s.outbox[e]) {
      UnfinishedReaches(s, e, n);
    } else if CanReach(s, e, n) {
      var acts, t :| Leads(s, acts, t) && Replay(e) !in acts && e in t.outbox && t.outbox[e].attempts == n;
      FinishedStays(s, acts, t, e, s.outbox[e]);
    }
  }

  /** Nothing has happened but the insertion of event `e`. */
  function Inserted(lease: nat, maxAttempts: nat, batchSize: nat, e: EventId): State {
    Apply(State(lease, maxAttempts, batchSize, map[], {}, [], map[], 0, map[], map[]), Insert(e, 0))
  }

  /** What can follow the insertion of one event makes a run. */
  lemma RunFrom(lease: nat, maxAttempts: nat, batchSize: nat, e: EventId, acts: seq<Action>, t: State)
    returns (states: seq<State>, actions: seq<Action>)
    requires Leads(Inserted(lease, maxAttempts, batchSize, e), acts, t)
    ensures IsRun(states, actions) && states[|actions|] == t
    ensures states[0].lease == lease && states[0].maxAttempts == maxAttempts && states[0].batchSize == batchSize
  {
    var start := State(lease, maxAttempts, batchSize, map[], {}, [], map[], 0, map[], map[]);
    var begun := [start, Inserted(lease, maxAttempts, batchSize, e)];
    assert StepAt(begun, [Insert(e, 0)], 0);
    states := RunGoesOn(begun, [Insert(e, 0)], acts, t);
    actions := [Insert(e, 0)] + acts;
  }

  /**
   * For every lease, maximum and batch size: a run from empty tables in which workers that die push an
   * event to any number of attempts.
   */
  lemma AttemptsUnbounded(lease: nat, maxAttempts: nat, batchSize: nat, e: EventId, n: nat)
    returns (states: seq<State>, actions: seq<Action>)
    requires batchSize > 0
    ensures IsRun(states, actions)
    ensures states[0].lease == lease && states[0].maxAttempts == maxAttempts && states[0].batchSize == batchSize
    ensures e in states[|actions|].outbox && states[|actions|].outbox[e].attempts == n
  {
    var acts, t := ManyMore(Inserted(lease, maxAttempts, batchSize, e), e, n);
    states, actions := RunFrom(lease, maxAttempts, batchSize, e, acts, t);
  }

  // ---------------------------------------------------------------- a late markFailed

  /** The head of `w`'s batch has failed, with its next attempt set, and that time has come. */
  function AfterFailure(s: State, w: WorkerId, e: EventId, wait: nat): State
    requires w in s.workers && s.workers[w].Busy? && |s.workers[w].batch| > 0 && e in s.outbox && e in s.marks
  {
    NextEvent(s, w).(
      outbox := s.outbox[e := s.outbox[e].(status := Failed, due := At(s.clock + wait))],
      marks := s.marks[e := s.marks[e] + [Retried]],
      clock := s.clock + wait)
  }

  function FailActs(w: WorkerId, now: int, wait: nat): seq<Action> {
    [HandlerFails(w), MarkFailed(w, now + wait), Tick(wait)]
  }

  /** A worker with attempts left fails its event, whoever else has claimed it since. */
  lemma FailOne(s: State, w: WorkerId, e: EventId, wait: nat)
    requires StandsAt(s, w, Fresh) && Head(s, w).event == e && Head(s, w).attempts < s.maxAttempts
    requires StatusIs(s, e, Processing) && e in s.marks && !EventLocked(s, e)
    ensures Leads(s, FailActs(w, s.clock, wait), AfterFailure(s, w, e, wait))
  {
    hide Leads;
    var retryAt := s.clock + wait;
    var broken, failed := SetStage(s, w, Broken), AfterFailure(s, w, e, wait).(clock := s.clock);
    BusyHoldsNoRow(s, w, s.workers[w].(stage := Broken), e);
    assert NextEvent(broken, w).workers == NextEvent(s, w).workers;
    LeadsOne(s, HandlerFails(w));
    LeadsThen(s, [HandlerFails(w)], broken, MarkFailed(w, retryAt));
    LeadsThen(s, [HandlerFails(w)] + [MarkFailed(w, retryAt)], failed, Tick(wait));
    assert [HandlerFails(w)] + [MarkFailed(w, retryAt)] + [Tick(wait)] == FailActs(w, s.clock, wait);
  }

  /** Worker 0 overruns its lease on event 0, and worker 1 claims the event. */
  function Overrun(lease: nat, maxAttempts: nat): State {
    State(lease, maxAttempts, 1, map[0 := Event(Processing, 2, At(lease + lease), 0)], {}, [],
          map[0 := Busy([Claim(0, 1)], Fresh), 1 := Busy([Claim(0, 2)], Fresh)],
          lease, map[0 := 0], map[0 := [Claimed(0), Claimed(lease)]])
  }

  /** The two claims, and what they leave. */
  lemma OverrunClaims(lease: nat, maxAttempts: nat)
    ensures var s := Inserted(lease, maxAttempts, 1, 0);
      && Claimable(s, 0)
      && var late := AfterClaim(s, 0, 0).(clock := lease);
      && Claimable(late, 0) && late.workers.Keys == {0} && AfterClaim(late, 1, 0) == Overrun(lease, maxAttempts)
  {
    assert [] + [Claimed(0)] == [Claimed(0)] && [Claimed(0)] + [Claimed(lease)] == [Claimed(0), Claimed(lease)];
  }

  lemma OverrunHappens(lease: nat, maxAttempts: nat)
    ensures Leads(Inserted(lease, maxAttempts, 1, 0), ClaimActs(0, 0) + [Tick(lease)] + ClaimActs(1, 0),
                  Overrun(lease, maxAttempts))
  {
    hide Leads, Claimable, Overrun, EventLocked, Eligible;
    var s := Inserted(lease, maxAttempts, 1, 0);
    OverrunClaims(lease, maxAttempts);
    var first := AfterClaim(s, 0, 0);
    var late := first.(clock := lease);
    ClaimOne(s, 0, 0);
    LeadsThen(s, ClaimActs(0, 0), first, Tick(lease));
    ClaimOne(late, 1, 0);
    LeadsOn(s, ClaimActs(0, 0) + [Tick(lease)], late, ClaimActs(1, 0), AfterClaim(late, 1, 0));
  }

  /**
   * A markFailed that comes after its own lease cuts short the lease of the worker that has the event
   * now: for every lease and every shorter wait, a run in which two workers hold an unfinished event
   * by claims less than the lease apart.
   */
  lemma LateFailureCutsLease(lease: nat, maxAttempts: nat, wait: nat)
    returns (states: seq<State>, actions: seq<Action>)
    requires maxAttempts >= 2 && wait < lease
    ensures IsRun(states, actions) && states[0].lease == lease && states[0].maxAttempts == maxAttempts
    ensures var s := states[|actions|];
      && !Settled(s, 0) && 1 in s.workers && 2 in s.workers
      && HeldAt(s.workers[1], 0, 0) && HeldAt(s.workers[2], 0, 0)
      && 0 in s.marks && s.marks[0] == [Claimed(0), Claimed(lease), Retried, Claimed(lease + wait)]
  {
    hide Leads;
    var s, t := Inserted(lease, maxAttempts, 1, 0), Overrun(lease, maxAttempts);
    var acts := ClaimActs(0, 0) + [Tick(lease)] + ClaimActs(1, 0);
    OverrunHappens(lease, maxAttempts);
    FailOne(t, 0, 0, wait);
    var failed := AfterFailure(t, 0, 0, wait);
    LeadsOn(s, acts, t, FailActs(0, lease, wait), failed);
    assert [Claimed(0), Claimed(lease)] + [Retried] == [Claimed(0), Claimed(lease), Retried];
    ClaimOne(failed, 2, 0);
    LeadsOn(s, acts + FailActs(0, lease, wait), failed, ClaimActs(2, 0), AfterClaim(failed, 2, 0));
    states, actions := RunFrom(lease, maxAttempts, 1, 0, acts + FailActs(0, lease, wait) + ClaimActs(2, 0),
                               AfterClaim(failed, 2, 0));
  }
}
