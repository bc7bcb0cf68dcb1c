/** What every run of outbox, workers, consumer and operator guarantees. */
module DeliveryTheorems {
  import opened Delivery

  // ---------------------------------------------------------------- nothing lost, nothing doubled

  predicate HasEffect(s: State, e: EventId) {
    exists i :: 0 <= i < |s.effects| && s.effects[i].event == e
  }

  /**
   * With crashes, lease expiries, redeliveries, replays and purges anywhere in the run: every event
   * ever written is still in the outbox or has its audit effect, no event has two effects, and
   * every effect belongs to a written event and carries that event's aggregate.
   */
  lemma NoLostEventNoDoubleEffect(states: seq<State>, actions: seq<Action>)
    requires IsRun(states, actions)
    ensures var s := states[|actions|];
      && (forall e :: e in s.written ==> e in s.outbox || HasEffect(s, e))
      && (forall i, j :: 0 <= i < j < |s.effects| ==> s.effects[i].event != s.effects[j].event)
      && (forall i :: 0 <= i < |s.effects| ==>
            s.effects[i].event in s.written && s.effects[i].aggregate == s.written[s.effects[i].event])
  {
    Reachable(states, actions, |actions|);
    EffectsComplete(states[|actions|]);
  }

  lemma EffectsComplete(s: State)
    requires Inv(s)
    ensures forall e :: e in s.written ==> e in s.outbox || HasEffect(s, e)
  {
    forall e | e in s.written && e !in s.outbox
      ensures HasEffect(s, e)
    {
      assert e in s.inbox;
    }
  }

  // ---------------------------------------------------------------- leases

  /** Batches being claimed at the same time are disjoint. */
  lemma ConcurrentClaimsAreDisjoint(states: seq<State>, actions: seq<Action>, w: WorkerId, v: WorkerId, e: EventId)
    requires IsRun(states, actions)
    requires var workers := states[|actions|].workers;
      && w in workers && v in workers && w != v && workers[w].Claiming? && workers[v].Claiming?
      && e in workers[w].locked
    ensures e !in states[|actions|].workers[v].locked
  {
    Reachable(states, actions, |actions|);
    assert Apart(states[|actions|].workers[w], states[|actions|].workers[v]);
  }

  /** Two claims of one event with no markFailed and no replay between them are at least the lease apart. */
  lemma ClaimsAreALeaseApart(states: seq<State>, actions: seq<Action>, e: EventId, i: nat, j: nat)
    requires IsRun(states, actions) && e in states[|actions|].marks
    requires i < j < |states[|actions|].marks[e]|
    requires var marks := states[|actions|].marks[e]; marks[i].Claimed? && marks[j].Claimed? && Undisturbed(marks, i, j)
    ensures var marks := states[|actions|].marks[e]; marks[j].time - marks[i].time >= states[0].lease
  {
    Reachable(states, actions, |actions|);
    assert LeasesApart(states[|actions|].marks[e], states[|actions|].lease);
  }

  // ---------------------------------------------------------------- attempts and parking

  /** attempts counts exactly the claims since the event was inserted or last replayed. */
  lemma AttemptsCountClaims(states: seq<State>, actions: seq<Action>, e: EventId)
    requires IsRun(states, actions) && e in states[|actions|].outbox
    ensures e in states[|actions|].marks
    ensures states[|actions|].outbox[e].attempts == ClaimsSinceReplay(states[|actions|].marks[e])
  {
    Reachable(states, actions, |actions|);
    assert EventOk(states[|actions|], e);
  }

  /** An event parked at infinity is not claimed, settled or purged until an operator replays it. */
  lemma {:induction false} ParkedUntilReplay(states: seq<State>, actions: seq<Action>, e: EventId, i: nat, j: nat)
    requires IsRun(states, actions) && i <= j <= |actions|
    requires e in states[i].outbox && Parked(states[i].outbox[e])
    requires forall m :: i <= m < j ==> actions[m] != Replay(e)
    ensures e in states[j].outbox && states[j].outbox[e] == states[i].outbox[e]
    ensures forall w :: w in states[j].workers && states[j].workers[w].Claiming? ==> e !in states[j].workers[w].locked
  {
    if i < j {
      ParkedUntilReplay(states, actions, e, i, j - 1);
      Reachable(states, actions, j - 1);
      assert StepAt(states, actions, j - 1);
      ParkedStays(states[j - 1], actions[j - 1], e);
    }
    Reachable(states, actions, j);
    NobodyLocksParked(states[j], e);
  }

  lemma NobodyLocksParked(s: State, e: EventId)
    requires Inv(s) && e in s.outbox && Parked(s.outbox[e])
    ensures forall w :: w in s.workers && s.workers[w].Claiming? ==> e !in s.workers[w].locked
  {
    forall w | w in s.workers && s.workers[w].Claiming?
      ensures e !in s.workers[w].locked
    {
      assert WorkerOk(s, s.workers[w]);
    }
  }

  lemma ParkedNotClaimed(s: State, w: WorkerId, e: EventId)
    requires Inv(s) && Enabled(s, CommitClaim(w)) && e in s.outbox && Parked(s.outbox[e])
    ensures e in ClaimLocked(s, w).outbox && ClaimLocked(s, w).outbox[e] == s.outbox[e]
  {
    NobodyLocksParked(s, e);
  }

  /** No single-row update of a parked row changes it, except the replay. */
  lemma ParkedRowStays(row: Event, now: int, due: Due)
    requires Parked(row)
    ensures ProcessedRow(row, now) == row && FailedRow(row, due) == row
  {
  }

  lemma StoredIsWritten(s: State, e: EventId)
    requires Inv(s) && e in s.outbox
    ensures e in s.written
  {
  }

  lemma ParkedStays(s: State, a: Action, e: EventId)
    requires Inv(s) && Enabled(s, a) && e in s.outbox && Parked(s.outbox[e]) && a != Replay(e)
    ensures e in Apply(s, a).outbox && Apply(s, a).outbox[e] == s.outbox[e]
  {
    hide Inv, ClaimLocked;
    StoredIsWritten(s, e);
    if a.CommitClaim? {
      ParkedNotClaimed(s, a.w, e);
    } else if a.MarkFailed? {
      ParkedRowStays(s.outbox[e], s.clock, NextDue(Head(s, a.w).attempts, s.maxAttempts, a.retryAt));
    }
  }

  // ---------------------------------------------------------------- processed is final

  /** A sweep whose cutoff the processed row is older than. */
  predicate PurgesEvent(a: Action, e: EventId, row: Event) {
    a.PurgeProcessed? && a.e == e && row.processedAt < a.cutoff
  }

  /**
   * A processed event is never claimed, failed, replayed or changed again, and it leaves the outbox
   * only through a sweep that its age allows.
   */
  lemma {:induction false} ProcessedIsFinal(states: seq<State>, actions: seq<Action>, e: EventId, i: nat, j: nat)
    requires IsRun(states, actions) && i <= j <= |actions|
    requires e in states[i].outbox && states[i].outbox[e].status == Processed
    requires forall m :: i <= m < j ==> !PurgesEvent(actions[m], e, states[i].outbox[e])
    ensures e in states[j].outbox && states[j].outbox[e] == states[i].outbox[e]
  {
    if i < j {
      ProcessedIsFinal(states, actions, e, i, j - 1);
      Reachable(states, actions, j - 1);
      assert StepAt(states, actions, j - 1);
      ProcessedStays(states[j - 1], actions[j - 1], e);
    }
  }

  lemma ProcessedNotClaimed(s: State, w: WorkerId, e: EventId)
    requires Inv(s) && Enabled(s, CommitClaim(w)) && e in s.outbox && s.outbox[e].status == Processed
    ensures e in ClaimLocked(s, w).outbox && ClaimLocked(s, w).outbox[e] == s.outbox[e]
  {
    assert WorkerOk(s, s.workers[w]);
  }

  lemma ProcessedStays(s: State, a: Action, e: EventId)
    requires Inv(s) && Enabled(s, a) && e in s.outbox && s.outbox[e].status == Processed
    requires !PurgesEvent(a, e, s.outbox[e])
    ensures e in Apply(s, a).outbox && Apply(s, a).outbox[e] == s.outbox[e]
  {
    hide Inv, ClaimLocked;
    StoredIsWritten(s, e);
    if a.CommitClaim? {
      ProcessedNotClaimed(s, a.w, e);
    }
  }

  /** Step `j` marked the event processed. */
  predicate MarkedAt(states: seq<State>, e: EventId, j: nat)
    requires j + 1 < |states|
  {
    StatusIs(states[j], e, Processing) && StatusIs(states[j + 1], e, Processed)
  }

  predicate MarkedProcessed(states: seq<State>, e: EventId, i: nat, at: int)
    requires i < |states|
  {
    exists j: nat :: j < i && MarkedAt(states, e, j) && states[j].clock == at
  }

  /** No claim makes a row processed. */
  lemma ClaimMarksNothing(s: State, w: WorkerId, e: EventId)
    requires w in s.workers && s.workers[w].Claiming? && StatusIs(ClaimLocked(s, w), e, Processed)
    ensures StatusIs(s, e, Processed)
  {
  }

  lemma StepMarks(s: State, a: Action, e: EventId)
    requires Inv(s) && Enabled(s, a) && StatusIs(Apply(s, a), e, Processed)
    ensures if StatusIs(s, e, Processed) then Apply(s, a).outbox[e] == s.outbox[e]
            else StatusIs(s, e, Processing) && Apply(s, a).outbox[e].processedAt == s.clock
  {
    hide Inv, ClaimLocked, EventLocked, InboxHeld, Eligible;
    if StatusIs(s, e, Processed) {
      if !PurgesEvent(a, e, s.outbox[e]) { ProcessedStays(s, a, e); }
    } else if a.CommitClaim? {
      ClaimMarksNothing(s, a.w, e);
    }
  }

  lemma NothingStored(s: State, e: EventId)
    requires Init(s)
    ensures !StatusIs(s, e, Processed)
  {
  }

  /** A processed event was marked so, out of processing, at the very time its row says. */
  lemma {:induction false} ProcessedWhenItSays(states: seq<State>, actions: seq<Action>, e: EventId, i: nat)
    requires IsRun(states, actions) && i <= |actions| && StatusIs(states[i], e, Processed)
    ensures MarkedProcessed(states, e, i, states[i].outbox[e].processedAt)
  {
    hide Inv, Enabled, Apply, StatusIs;
    if i == 0 {
      NothingStored(states[0], e);
    } else {
      Reachable(states, actions, i - 1);
      assert StepAt(states, actions, i - 1);
      StepMarks(states[i - 1], actions[i - 1], e);
      if StatusIs(states[i - 1], e, Processed) {
        ProcessedWhenItSays(states, actions, e, i - 1);
      } else {
        assert MarkedAt(states, e, i - 1);
      }
    }
  }

  /** An event leaves the outbox only by a sweep, and only after it was marked processed before the cutoff. */
  lemma OnlyOldProcessedLeave(states: seq<State>, actions: seq<Action>, e: EventId, i: nat)
    requires IsRun(states, actions) && i < |actions| && e in states[i].outbox && e !in states[i + 1].outbox
    ensures actions[i].PurgeProcessed? && actions[i].e == e
    ensures exists at :: MarkedProcessed(states, e, i, at) && at < actions[i].cutoff
  {
    assert StepAt(states, actions, i);
    LeavesByPurge(states[i], actions[i], e);
    ProcessedWhenItSays(states, actions, e, i);
  }

  lemma LeavesByPurge(s: State, a: Action, e: EventId)
    requires Enabled(s, a) && e in s.outbox && e !in Apply(s, a).outbox
    ensures StatusIs(s, e, Processed) && PurgesEvent(a, e, s.outbox[e])
  {
  }

  // ---------------------------------------------------------------- one event within its leases

  /** The claim of `f` in force, if any, is still within its lease. */
  predicate WithinLease(s: State, f: EventId) {
    f in s.outbox && s.outbox[f].status == Processing ==>
      s.outbox[f].due.At? && s.clock < s.outbox[f].due.time
  }

  function Cap(maxAttempts: nat): nat {
    if maxAttempts == 0 then 1 else maxAttempts
  }

  predicate Budgeted(row: Event, maxAttempts: nat) {
    && row.attempts <= Cap(maxAttempts)
    && (row.status == Pending ==> row.attempts == 0)
    && (row.status == Failed ==> row.due == Never || row.attempts < maxAttempts)
  }

  predicate Settled(s: State, f: EventId) {
    f !in s.outbox || s.outbox[f].status == Processed
  }

  /** What a worker remembers of a claim is what the row still says, unless the event is done. */
  predicate ClaimCurrent(s: State, c: Claim) {
    Settled(s, c.event) || (s.outbox[c.event].status == Processing && s.outbox[c.event].attempts == c.attempts)
  }

  /** Position `i` of a held batch is a claim of `f`. */
  predicate HeldAt(x: Worker, f: EventId, i: int) {
    x.Busy? && 0 <= i < |x.batch| && x.batch[i].event == f
  }

  ghost predicate HolderOk(s: State, x: Worker, f: EventId) {
    && (x.Claiming? && f in x.locked ==> f in s.outbox && s.outbox[f].status != Processing)
    && (forall i :: HeldAt(x, f, i) ==> ClaimCurrent(s, x.batch[i]))
    && (forall i, j :: HeldAt(x, f, i) && HeldAt(x, f, j) ==> i == j)
  }

  /** Two workers hold claims of `f` only when it is done. */
  ghost predicate HoldersApart(s: State, x: Worker, y: Worker, f: EventId) {
    forall i, j :: HeldAt(x, f, i) && HeldAt(y, f, j) ==> Settled(s, f)
  }

  ghost predicate PromptInv(s: State, f: EventId) {
    && (f in s.outbox ==> Budgeted(s.outbox[f], s.maxAttempts))
    && (forall w :: w in s.workers ==> HolderOk(s, s.workers[w], f))
    && (forall w, v :: w in s.workers && v in s.workers && w != v ==> HoldersApart(s, s.workers[w], s.workers[v], f))
  }

  /** A step that leaves the rows alone and gives one worker a record holding no more of `f` than before. */
  lemma WorkerKeepsPrompt(s: State, f: EventId, w: WorkerId, x: Worker)
    requires PromptInv(s, f) && HolderOk(s, x, f)
    requires forall v :: v in s.workers && v != w ==>
      HoldersApart(s, x, s.workers[v], f) && HoldersApart(s, s.workers[v], x, f)
    ensures PromptInv(SetWorker(s, w, x), f)
  {
    hide HeldAt;
    var s' := SetWorker(s, w, x);
    forall v | v in s'.workers
      ensures HolderOk(s', s'.workers[v], f)
    {
      assert v != w ==> HolderOk(s, s.workers[v], f);
    }
    forall v, u | v in s'.workers && u in s'.workers && v != u
      ensures HoldersApart(s', s'.workers[v], s'.workers[u], f)
    {
      assert v != w && u != w ==> HoldersApart(s, s.workers[v], s.workers[u], f);
    }
  }

  /** The rows change, but not that of `f`. */
  lemma OtherRowKeepsPrompt(s: State, s': State, f: EventId)
    requires PromptInv(s, f) && s'.workers == s.workers && s'.maxAttempts == s.maxAttempts
    requires (f in s'.outbox <==> f in s.outbox) && (f in s.outbox ==> s'.outbox[f] == s.outbox[f])
    ensures PromptInv(s', f)
  {
    hide Budgeted;
    forall w | w in s'.workers
      ensures HolderOk(s', s'.workers[w], f)
    {
      assert HolderOk(s, s.workers[w], f);
      forall i | HeldAt(s.workers[w], f, i)
        ensures ClaimCurrent(s', s.workers[w].batch[i])
      {
        assert ClaimCurrent(s, s.workers[w].batch[i]);
      }
    }
    forall w, v | w in s'.workers && v in s'.workers && w != v
      ensures HoldersApart(s', s'.workers[w], s'.workers[v], f)
    {
      assert HoldersApart(s, s.workers[w], s.workers[v], f);
    }
  }

  /** No claim of `f` is held by anybody. */
  ghost predicate NotHeld(s: State, f: EventId) {
    forall w, i :: w in s.workers ==> !HeldAt(s.workers[w], f, i)
  }

  /** The row of `f` changes while nobody has it locked and nobody holds it unfinished. */
  lemma OwnRowKeepsPrompt(s: State, s': State, f: EventId)
    requires PromptInv(s, f) && !EventLocked(s, f) && s'.workers == s.workers && s'.maxAttempts == s.maxAttempts
    requires f in s'.outbox ==> Budgeted(s'.outbox[f], s.maxAttempts)
    requires Settled(s', f) || NotHeld(s, f)
    ensures PromptInv(s', f)
  {
    hide Budgeted;
    forall w | w in s'.workers
      ensures HolderOk(s', s'.workers[w], f)
    {
      assert HolderOk(s, s.workers[w], f);
      assert s.workers[w].Claiming? ==> f !in s.workers[w].locked;
    }
    forall w, v | w in s'.workers && v in s'.workers && w != v
      ensures HoldersApart(s', s'.workers[w], s'.workers[v], f)
    {
      assert HoldersApart(s, s.workers[w], s.workers[v], f);
    }
  }

  lemma DropHeldAt(batch: seq<Claim>, stage: Stage, f: EventId, i: int)
    requires |batch| > 0
    ensures HeldAt(Busy(batch[1..], Fresh), f, i) ==> HeldAt(Busy(batch, stage), f, i + 1)
  {
  }

  lemma NextEventKeepsPrompt(s: State, f: EventId, w: WorkerId)
    requires PromptInv(s, f) && w in s.workers && s.workers[w].Busy? && |s.workers[w].batch| > 0
    ensures PromptInv(NextEvent(s, w), f)
  {
    var x := s.workers[w];
    var y := Busy(x.batch[1..], Fresh);
    assert HolderOk(s, x, f);
    forall i | HeldAt(y, f, i)
      ensures HeldAt(x, f, i + 1) && y.batch[i] == x.batch[i + 1]
    {
      DropHeldAt(x.batch, x.stage, f, i);
    }
    forall v | v in s.workers && v != w
      ensures HoldersApart(s, y, s.workers[v], f) && HoldersApart(s, s.workers[v], y, f)
    {
      assert HoldersApart(s, x, s.workers[v], f) && HoldersApart(s, s.workers[v], x, f);
    }
    WorkerKeepsPrompt(s, f, w, y);
  }

  lemma StageKeepsPrompt(s: State, f: EventId, w: WorkerId, stage: Stage)
    requires PromptInv(s, f) && w in s.workers && s.workers[w].Busy?
    ensures PromptInv(SetStage(s, w, stage), f)
  {
    var x := s.workers[w];
    var y := x.(stage := stage);
    assert HolderOk(s, x, f);
    assert forall i :: HeldAt(y, f, i) <==> HeldAt(x, f, i);
    forall v | v in s.workers && v != w
      ensures HoldersApart(s, y, s.workers[v], f) && HoldersApart(s, s.workers[v], y, f)
    {
      assert HoldersApart(s, x, s.workers[v], f) && HoldersApart(s, s.workers[v], x, f);
    }
    WorkerKeepsPrompt(s, f, w, y);
  }

  /** After the unfinished head of `w`'s batch is dropped, nobody holds a claim of it. */
  lemma HeadHeldOnce(s: State, f: EventId, w: WorkerId)
    requires PromptInv(s, f) && w in s.workers && s.workers[w].Busy? && |s.workers[w].batch| > 0
    requires Head(s, w).event == f && !Settled(s, f)
    ensures NotHeld(NextEvent(s, w), f)
  {
    var t, x := NextEvent(s, w), s.workers[w];
    assert HeldAt(x, f, 0) && HolderOk(s, x, f);
    forall v, i | v in t.workers
      ensures !HeldAt(t.workers[v], f, i)
    {
      if v == w {
        DropHeldAt(x.batch, x.stage, f, i);
      } else {
        assert HoldersApart(s, x, s.workers[v], f);
      }
    }
  }

  lemma FailedKeepsPrompt(s: State, f: EventId, w: WorkerId, retryAt: int)
    requires PromptInv(s, f) && Enabled(s, MarkFailed(w, retryAt))
    ensures PromptInv(Apply(s, MarkFailed(w, retryAt)), f)
  {
    var c, t, s' := Head(s, w), NextEvent(s, w), Apply(s, MarkFailed(w, retryAt));
    NextEventKeepsPrompt(s, f, w);
    if c.event == f && !Settled(s, f) {
      HeadHeldOnce(s, f, w);
      BusyHoldsNoRow(s, w, Busy(s.workers[w].batch[1..], Fresh), f);
      assert HeldAt(s.workers[w], f, 0) && HolderOk(s, s.workers[w], f) && ClaimCurrent(s, c);
      OwnRowKeepsPrompt(t, s', f);
    } else {
      OtherRowKeepsPrompt(t, s', f);
    }
  }

  lemma ProcessedKeepsPrompt(s: State, f: EventId, e: EventId)
    requires PromptInv(s, f) && !EventLocked(s, e)
    ensures PromptInv(SetRow(s, e, row => ProcessedRow(row, s.clock)), f)
  {
    var s' := SetRow(s, e, row => ProcessedRow(row, s.clock));
    if e == f && f in s.outbox && s.outbox[f].status == Processing {
      OwnRowKeepsPrompt(s, s', f);
    } else {
      OtherRowKeepsPrompt(s, s', f);
    }
  }

  lemma ReplayKeepsPrompt(s: State, f: EventId, e: EventId)
    requires PromptInv(s, f) && Enabled(s, Replay(e))
    ensures PromptInv(Apply(s, Replay(e)), f)
  {
    if e == f && f in s.outbox && Parked(s.outbox[f]) {
      forall w, i | w in s.workers
        ensures !HeldAt(s.workers[w], f, i)
      {
        assert HolderOk(s, s.workers[w], f);
      }
      OwnRowKeepsPrompt(s, Apply(s, Replay(e)), f);
    } else {
      OtherRowKeepsPrompt(s, Apply(s, Replay(e)), f);
    }
  }

  lemma InsertKeepsPrompt(s: State, f: EventId, e: EventId, aggregate: Aggregate)
    requires Inv(s) && PromptInv(s, f) && Enabled(s, Insert(e, aggregate))
    ensures PromptInv(Apply(s, Insert(e, aggregate)), f)
  {
    if e == f {
      forall w | w in s.workers
        ensures s.workers[w].Claiming? ==> f !in s.workers[w].locked
        ensures forall i :: !HeldAt(s.workers[w], f, i)
      {
        assert WorkerOk(s, s.workers[w]);
      }
      OwnRowKeepsPrompt(s, Apply(s, Insert(e, aggregate)), f);
    } else {
      OtherRowKeepsPrompt(s, Apply(s, Insert(e, aggregate)), f);
    }
  }

  lemma PurgeKeepsPrompt(s: State, f: EventId, e: EventId)
    requires Inv(s) && PromptInv(s, f) && StatusIs(s, e, Processed)
    ensures PromptInv(s.(outbox := s.outbox - {e}), f)
  {
    if e == f {
      forall w | w in s.workers && s.workers[w].Claiming?
        ensures f !in s.workers[w].locked
      {
        assert WorkerOk(s, s.workers[w]);
      }
      OwnRowKeepsPrompt(s, s.(outbox := s.outbox - {e}), f);
    } else {
      OtherRowKeepsPrompt(s, s.(outbox := s.outbox - {e}), f);
    }
  }

  lemma LockKeepsPrompt(s: State, f: EventId, w: WorkerId, e: EventId)
    requires Inv(s) && PromptInv(s, f) && WithinLease(s, f) && Enabled(s, LockEvent(w, e))
    ensures PromptInv(Apply(s, LockEvent(w, e)), f)
  {
    var x := s.workers[w];
    assert WorkerOk(s, x) && HolderOk(s, x, f);
    WorkerKeepsPrompt(s, f, w, x.(locked := x.locked + [e]));
  }

  /** Nobody holds a row that is locked for a new claim. */
  lemma LockedNotHeld(s: State, f: EventId, w: WorkerId, v: WorkerId, i: int)
    requires Inv(s) && PromptInv(s, f) && Enabled(s, CommitClaim(w)) && f in s.workers[w].locked
    requires v in s.workers
    ensures !HeldAt(s.workers[v], f, i)
  {
    assert WorkerOk(s, s.workers[w]) && HolderOk(s, s.workers[w], f) && HolderOk(s, s.workers[v], f);
  }

  /** A claim's batch holds `f` once if it was locked, and not at all otherwise. */
  lemma ClaimsHold(s: State, w: WorkerId, f: EventId, i: int)
    requires Inv(s) && Enabled(s, CommitClaim(w))
    ensures var x := ClaimLocked(s, w).workers[w];
      && (HeldAt(x, f, i) ==> f in s.workers[w].locked && 0 <= i < |s.workers[w].locked| && s.workers[w].locked[i] == f)
      && (HeldAt(x, f, i) ==> ClaimCurrent(ClaimLocked(s, w), x.batch[i]))
  {
    assert WorkerOk(s, s.workers[w]);
  }

  lemma ClaimKeepsHolder(s: State, f: EventId, w: WorkerId, v: WorkerId)
    requires Inv(s) && PromptInv(s, f) && Enabled(s, CommitClaim(w)) && v in s.workers
    ensures HolderOk(ClaimLocked(s, w), ClaimLocked(s, w).workers[v], f)
  {
    var s', y := ClaimLocked(s, w), s.workers[v];
    assert WorkerOk(s, s.workers[w]) && HolderOk(s, y, f);
    if v == w {
      forall i
        ensures HeldAt(s'.workers[w], f, i) ==> ClaimCurrent(s', s'.workers[w].batch[i])
      {
        ClaimsHold(s, w, f, i);
      }
      forall i, j | HeldAt(s'.workers[w], f, i) && HeldAt(s'.workers[w], f, j)
        ensures i == j
      {
        ClaimsHold(s, w, f, i);
        ClaimsHold(s, w, f, j);
      }
    } else if y.Claiming? {
      assert Apart(y, s.workers[w]);
    } else if f in s.workers[w].locked {
      forall i ensures !HeldAt(y, f, i) { LockedNotHeld(s, f, w, v, i); }
    } else {
      forall i | HeldAt(y, f, i) ensures ClaimCurrent(s', y.batch[i]) { assert ClaimCurrent(s, y.batch[i]); }
    }
  }

  lemma ClaimKeepsApart(s: State, f: EventId, w: WorkerId, v: WorkerId, u: WorkerId)
    requires Inv(s) && PromptInv(s, f) && Enabled(s, CommitClaim(w)) && v in s.workers && u in s.workers && u != v
    ensures HoldersApart(ClaimLocked(s, w), ClaimLocked(s, w).workers[v], ClaimLocked(s, w).workers[u], f)
  {
    var s' := ClaimLocked(s, w);
    assert HoldersApart(s, s.workers[v], s.workers[u], f);
    forall i, j | HeldAt(s'.workers[v], f, i) && HeldAt(s'.workers[u], f, j)
      ensures Settled(s', f)
    {
      if v == w {
        ClaimsHold(s, w, f, i);
        LockedNotHeld(s, f, w, u, j);
      } else if u == w {
        ClaimsHold(s, w, f, j);
        LockedNotHeld(s, f, w, v, i);
      } else {
        assert Settled(s, f);
        assert WorkerOk(s, s.workers[w]);
      }
    }
  }

  lemma ClaimKeepsBudget(s: State, f: EventId, w: WorkerId)
    requires Inv(s) && PromptInv(s, f) && Enabled(s, CommitClaim(w)) && f in s.outbox
    ensures Budgeted(ClaimLocked(s, w).outbox[f], s.maxAttempts)
  {
    assert WorkerOk(s, s.workers[w]) && HolderOk(s, s.workers[w], f);
  }

  lemma ClaimKeepsPrompt(s: State, f: EventId, w: WorkerId)
    requires Inv(s) && PromptInv(s, f) && Enabled(s, CommitClaim(w))
    ensures PromptInv(ClaimLocked(s, w), f)
  {
    hide Inv, Budgeted, HolderOk, HoldersApart;
    var s' := ClaimLocked(s, w);
    if f in s.outbox { ClaimKeepsBudget(s, f, w); }
    forall v | v in s'.workers ensures HolderOk(s', s'.workers[v], f) { ClaimKeepsHolder(s, f, w, v); }
    forall v, u | v in s'.workers && u in s'.workers && v != u
      ensures HoldersApart(s', s'.workers[v], s'.workers[u], f)
    {
      ClaimKeepsApart(s, f, w, v, u);
    }
  }

  lemma QuietKeepsPrompt(s: State, f: EventId, w: WorkerId, ms: nat)
    requires PromptInv(s, f)
    ensures PromptInv(s.(workers := s.workers - {w}), f) && PromptInv(s.(clock := s.clock + ms), f)
  {
    var a, b := s.(workers := s.workers - {w}), s.(clock := s.clock + ms);
    forall v | v in s.workers
      ensures HolderOk(a, s.workers[v], f) && HolderOk(b, s.workers[v], f)
    {
      assert HolderOk(s, s.workers[v], f);
    }
    forall v, u | v in s.workers && u in s.workers && v != u
      ensures HoldersApart(a, s.workers[v], s.workers[u], f) && HoldersApart(b, s.workers[v], s.workers[u], f)
    {
      assert HoldersApart(s, s.workers[v], s.workers[u], f);
    }
  }

  lemma BeginKeepsPrompt(s: State, f: EventId, w: WorkerId)
    requires PromptInv(s, f)
    ensures PromptInv(SetWorker(s, w, Claiming(s.clock, [])), f)
  {
    WorkerKeepsPrompt(s, f, w, Claiming(s.clock, []));
  }

  lemma ConsumeKeepsPrompt(s: State, f: EventId, w: WorkerId)
    requires PromptInv(s, f) && Enabled(s, ConsumeCommit(w))
    ensures PromptInv(Apply(s, ConsumeCommit(w)), f)
  {
    StageKeepsPrompt(s, f, w, Handled);
    OtherRowKeepsPrompt(SetStage(s, w, Handled), Apply(s, ConsumeCommit(w)), f);
  }

  lemma PromptStep(s: State, a: Action, f: EventId)
    requires Inv(s) && PromptInv(s, f) && WithinLease(s, f) && Enabled(s, a)
    ensures PromptInv(Apply(s, a), f)
  {
    hide Inv, PromptInv, WithinLease;
    match a
    case Insert(e, aggregate) => InsertKeepsPrompt(s, f, e, aggregate);
    case BeginClaim(w) => BeginKeepsPrompt(s, f, w);
    case LockEvent(w, e) => LockKeepsPrompt(s, f, w, e);
    case CommitClaim(w) => ClaimKeepsPrompt(s, f, w);
    case ConsumeClaim(w) => StageKeepsPrompt(s, f, w, if Head(s, w).event in s.inbox then Handled else InboxClaimed);
    case ConsumeCommit(w) => ConsumeKeepsPrompt(s, f, w);
    case HandlerFails(w) => StageKeepsPrompt(s, f, w, Broken);
    case MarkProcessed(w) =>
      NextEventKeepsPrompt(s, f, w);
      BusyHoldsNoRow(s, w, Busy(s.workers[w].batch[1..], Fresh), Head(s, w).event);
      ProcessedKeepsPrompt(NextEvent(s, w), f, Head(s, w).event);
    case MarkProcessedUnconfirmed(w) =>
      StageKeepsPrompt(s, f, w, Broken);
      BusyHoldsNoRow(s, w, s.workers[w].(stage := Broken), Head(s, w).event);
      ProcessedKeepsPrompt(SetStage(s, w, Broken), f, Head(s, w).event);
    case MarkProcessedFails(w) => StageKeepsPrompt(s, f, w, Broken);
    case MarkFailed(w, retryAt) => FailedKeepsPrompt(s, f, w, retryAt);
    case Abandon(w) => QuietKeepsPrompt(s, f, w, 0);
    case Replay(e) => ReplayKeepsPrompt(s, f, e);
    case PurgeProcessed(e, cutoff) => if StatusIs(s, e, Processed) { PurgeKeepsPrompt(s, f, e); }
    case Tick(ms) => QuietKeepsPrompt(s, f, 0, ms);
  }

  lemma InitIsPrompt(s: State, f: EventId)
    requires Init(s)
    ensures PromptInv(s, f)
  {
  }

  lemma {:induction false} PromptReachable(states: seq<State>, actions: seq<Action>, f: EventId, i: nat)
    requires IsRun(states, actions) && i <= |actions|
    requires forall m :: 0 <= m < i ==> WithinLease(states[m], f)
    ensures PromptInv(states[i], f)
  {
    hide PromptInv, Inv, Init, Enabled, Apply;
    if i == 0 {
      InitIsPrompt(states[0], f);
    } else {
      PromptReachable(states, actions, f, i - 1);
      Reachable(states, actions, i - 1);
      assert StepAt(states, actions, i - 1) && WithinLease(states[i - 1], f);
      PromptStep(states[i - 1], actions[i - 1], f);
    }
  }

  /**
   * When no claim of an event outlives its lease, the event is never delivered more than maxAttempts
   * times per budget.
   */
  lemma DeliveryIsBounded(states: seq<State>, actions: seq<Action>, f: EventId)
    requires IsRun(states, actions) && f in states[|actions|].outbox
    requires forall m :: 0 <= m < |actions| ==> WithinLease(states[m], f)
    ensures states[|actions|].outbox[f].attempts <= Cap(states[0].maxAttempts)
  {
    Reachable(states, actions, |actions|);
    PromptReachable(states, actions, f, |actions|);
  }

  /**
   * When no claim of an event outlives its lease, no two workers hold a claim of it while it is
   * unfinished: neither two batches already held, nor one held and one being claimed.
   */
  lemma LeasesExclude(states: seq<State>, actions: seq<Action>, f: EventId, w: WorkerId, v: WorkerId, i: int)
    requires IsRun(states, actions) && !Settled(states[|actions|], f)
    requires forall m :: 0 <= m < |actions| ==> WithinLease(states[m], f)
    requires var workers := states[|actions|].workers;
      w in workers && v in workers && w != v && HeldAt(workers[w], f, i)
    ensures var other := states[|actions|].workers[v];
      (forall j :: !HeldAt(other, f, j)) && (other.Claiming? ==> f !in other.locked)
  {
    PromptReachable(states, actions, f, |actions|);
    var s := states[|actions|];
    assert HoldersApart(s, s.workers[w], s.workers[v], f);
    assert HolderOk(s, s.workers[w], f) && HolderOk(s, s.workers[v], f);
    assert ClaimCurrent(s, s.workers[w].batch[i]);
  }
}
