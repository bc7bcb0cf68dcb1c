/**
 * The transactional outbox with any number of leased workers, the audit consumer behind its inbox,
 * and the operator.
 *
 * Each action is one atomic SQL statement, one commit, or one move inside a worker; workers crash
 * or overrun their lease at any point, a confirmation may get lost, and time passes in between.
 */
module Delivery {
  type EventId = nat
  type WorkerId = nat
  type Aggregate = nat

  datatype Status = Pending | Processing | Failed | Processed

  /** next_attempt_at: NULL, a timestamp, or infinity. */
  datatype Due = Immediately | At(time: int) | Never

  datatype Event = Event(status: Status, attempts: nat, due: Due, processedAt: int)

  datatype Effect = Effect(event: EventId, aggregate: Aggregate)

  /** One claimed event as `claimBatch` returned it. */
  datatype Claim = Claim(event: EventId, attempts: nat)

  /** Where a worker stands with the first event of its batch. */
  datatype Stage = Fresh | InboxClaimed | Handled | Broken

  datatype Worker =
    | Claiming(now: int, locked: seq<EventId>)
    | Busy(batch: seq<Claim>, stage: Stage)

  /** What moved an event's lease, oldest first. */
  datatype Mark = Claimed(time: int) | Retried | Replayed

  datatype State = State(
    lease: nat,
    maxAttempts: nat,
    batchSize: nat,
    outbox: map<EventId, Event>,
    inbox: set<EventId>,
    effects: seq<Effect>,
    workers: map<WorkerId, Worker>,
    clock: int,
    written: map<EventId, Aggregate>,
    marks: map<EventId, seq<Mark>>)

  /** `HandlerFails` of a handled event is a consumer's COMMIT whose answer was lost. */
  datatype Action =
    | Insert(e: EventId, aggregate: Aggregate)
    | BeginClaim(w: WorkerId)
    | LockEvent(w: WorkerId, e: EventId)
    | CommitClaim(w: WorkerId)
    | ConsumeClaim(w: WorkerId)
    | ConsumeCommit(w: WorkerId)
    | HandlerFails(w: WorkerId)
    | MarkProcessed(w: WorkerId)
    | MarkProcessedUnconfirmed(w: WorkerId)
    | MarkProcessedFails(w: WorkerId)
    | MarkFailed(w: WorkerId, retryAt: int)
    | Abandon(w: WorkerId)
    | Replay(e: EventId)
    | PurgeProcessed(e: EventId, cutoff: int)
    | Tick(ms: nat)

  // ---------------------------------------------------------------- the statements on one row

  predicate Eligible(row: Event, now: int) {
    row.status != Processed && (row.due == Immediately || (row.due.At? && row.due.time <= now))
  }

  predicate Parked(row: Event) {
    row.status == Failed && row.due == Never
  }

  function ClaimRow(row: Event, now: int, lease: nat): Event {
    row.(status := Processing, attempts := row.attempts + 1, due := At(now + lease))
  }

  /** UPDATE ... WHERE id IN (the claimed rows). */
  function ClaimRows(rows: map<EventId, Event>, claimed: seq<EventId>, now: int, lease: nat): map<EventId, Event> {
    map e | e in rows :: if e in claimed then ClaimRow(rows[e], now, lease) else rows[e]
  }

  function ProcessedRow(row: Event, now: int): Event {
    if row.status == Processing then row.(status := Processed, processedAt := now) else row
  }

  function FailedRow(row: Event, due: Due): Event {
    if row.status == Processing then row.(status := Failed, due := due) else row
  }

  function ReplayedRow(row: Event): Event {
    if Parked(row) then row.(status := Pending, attempts := 0, due := Immediately) else row
  }

  /** `processEvent`: the budget is spent, so park it; otherwise retry later. */
  function NextDue(attempts: nat, maxAttempts: nat, retryAt: int): Due {
    if attempts >= maxAttempts then Never else At(retryAt)
  }

  // ---------------------------------------------------------------- steps

  predicate EventLocked(s: State, e: EventId) {
    exists w :: w in s.workers && s.workers[w].Claiming? && e in s.workers[w].locked
  }

  predicate StandsAt(s: State, w: WorkerId, stage: Stage) {
    w in s.workers && s.workers[w].Busy? && |s.workers[w].batch| > 0 && s.workers[w].stage == stage
  }

  function Head(s: State, w: WorkerId): Claim
    requires w in s.workers && s.workers[w].Busy? && |s.workers[w].batch| > 0
  {
    s.workers[w].batch[0]
  }

  /** Another delivery of the event has inserted its inbox row and not committed yet. */
  predicate InboxHeld(s: State, e: EventId) {
    exists w :: w in s.workers && StandsAt(s, w, InboxClaimed) && Head(s, w).event == e
  }

  predicate Enabled(s: State, a: Action) {
    match a
    case Insert(e, _) => e !in s.written
    case BeginClaim(w) => w !in s.workers
    case LockEvent(w, e) =>
      && w in s.workers && s.workers[w].Claiming? && |s.workers[w].locked| < s.batchSize
      && e in s.outbox && !EventLocked(s, e) && Eligible(s.outbox[e], s.workers[w].now)
    case CommitClaim(w) => w in s.workers && s.workers[w].Claiming?
    case ConsumeClaim(w) => StandsAt(s, w, Fresh) && !InboxHeld(s, Head(s, w).event)
    case ConsumeCommit(w) => StandsAt(s, w, InboxClaimed) && Head(s, w).event in s.written
    case HandlerFails(w) => StandsAt(s, w, Fresh) || StandsAt(s, w, InboxClaimed) || StandsAt(s, w, Handled)
    case MarkProcessed(w) => StandsAt(s, w, Handled) && !EventLocked(s, Head(s, w).event)
    case MarkProcessedUnconfirmed(w) => StandsAt(s, w, Handled) && !EventLocked(s, Head(s, w).event)
    case MarkProcessedFails(w) => StandsAt(s, w, Handled)
    case MarkFailed(w, _) => StandsAt(s, w, Broken) && !EventLocked(s, Head(s, w).event)
    case Abandon(w) => w in s.workers
    case Replay(e) => !EventLocked(s, e)
    case PurgeProcessed(e, _) => true
    case Tick(_) => true
  }

  function Apply(s: State, a: Action): State
    requires Enabled(s, a)
  {
    match a
    case Insert(e, aggregate) =>
      s.(outbox := s.outbox[e := Event(Pending, 0, Immediately, 0)],
         written := s.written[e := aggregate],
         marks := s.marks[e := []])
    case BeginClaim(w) => SetWorker(s, w, Claiming(s.clock, []))
    case LockEvent(w, e) => SetWorker(s, w, s.workers[w].(locked := s.workers[w].locked + [e]))
    case CommitClaim(w) => ClaimLocked(s, w)
    case ConsumeClaim(w) => SetStage(s, w, if Head(s, w).event in s.inbox then Handled else InboxClaimed)
    case ConsumeCommit(w) =>
      var e := Head(s, w).event;
      SetStage(s, w, Handled).(inbox := s.inbox + {e}, effects := s.effects + [Effect(e, s.written[e])])
    case HandlerFails(w) => SetStage(s, w, Broken)
    case MarkProcessed(w) =>
      SetRow(NextEvent(s, w), Head(s, w).event, row => ProcessedRow(row, s.clock))
    case MarkProcessedUnconfirmed(w) =>
      SetRow(SetStage(s, w, Broken), Head(s, w).event, row => ProcessedRow(row, s.clock))
    case MarkProcessedFails(w) => SetStage(s, w, Broken)
    case MarkFailed(w, retryAt) =>
      var due := NextDue(Head(s, w).attempts, s.maxAttempts, retryAt);
      AddMark(SetRow(NextEvent(s, w), Head(s, w).event, row => FailedRow(row, due)),
              Head(s, w).event, StatusIs(s, Head(s, w).event, Processing), Retried)
    case Abandon(w) => s.(workers := s.workers - {w})
    case Replay(e) =>
      AddMark(SetRow(s, e, ReplayedRow), e, e in s.outbox && Parked(s.outbox[e]), Replayed)
    case PurgeProcessed(e, cutoff) =>
      if StatusIs(s, e, Processed) && s.outbox[e].processedAt < cutoff then s.(outbox := s.outbox - {e}) else s
    case Tick(ms) => s.(clock := s.clock + ms)
  }

  predicate StatusIs(s: State, e: EventId, status: Status) {
    e in s.outbox && s.outbox[e].status == status
  }

  function SetWorker(s: State, w: WorkerId, worker: Worker): State {
    s.(workers := s.workers[w := worker])
  }

  function SetStage(s: State, w: WorkerId, stage: Stage): State
    requires w in s.workers && s.workers[w].Busy?
  {
    SetWorker(s, w, s.workers[w].(stage := stage))
  }

  function NextEvent(s: State, w: WorkerId): State
    requires w in s.workers && s.workers[w].Busy? && |s.workers[w].batch| > 0
  {
    SetWorker(s, w, Busy(s.workers[w].batch[1..], Fresh))
  }

  function SetRow(s: State, e: EventId, update: Event -> Event): State {
    if e in s.outbox then s.(outbox := s.outbox[e := update(s.outbox[e])]) else s
  }

  function AddMark(s: State, e: EventId, when: bool, mark: Mark): State {
    if when && e in s.marks then s.(marks := s.marks[e := s.marks[e] + [mark]]) else s
  }

  /** The claim's UPDATE of its locked rows, and COMMIT. */
  function ClaimLocked(s: State, w: WorkerId): State
    requires w in s.workers && s.workers[w].Claiming?
  {
    var now, locked := s.workers[w].now, s.workers[w].locked;
    s.(outbox := ClaimRows(s.outbox, locked, now, s.lease),
       marks := map e | e in s.marks ::
         if e in locked && e in s.outbox then s.marks[e] + [Claimed(now)] else s.marks[e],
       workers := s.workers[w := Busy(Claims(s.outbox, locked), Fresh)])
  }

  /** RETURNING id, attempts of the locked rows. */
  function Claims(outbox: map<EventId, Event>, locked: seq<EventId>): seq<Claim> {
    seq(|locked|, i requires 0 <= i < |locked| =>
      Claim(locked[i], if locked[i] in outbox then outbox[locked[i]].attempts + 1 else 0))
  }

  ghost predicate Init(s: State) {
    && s.outbox == map[] && s.inbox == {} && s.effects == []
    && s.workers == map[] && s.written == map[] && s.marks == map[]
  }

  predicate StepAt(states: seq<State>, actions: seq<Action>, i: nat)
    requires i < |actions| && |states| == |actions| + 1
  {
    Enabled(states[i], actions[i]) && states[i + 1] == Apply(states[i], actions[i])
  }

  /** A run: the states passed through, from empty tables on, and the step between each two. */
  ghost predicate IsRun(states: seq<State>, actions: seq<Action>) {
    && |states| == |actions| + 1
    && Init(states[0])
    && forall i :: 0 <= i < |actions| ==> StepAt(states, actions, i)
  }

  // ---------------------------------------------------------------- one event's marks

  /** Claims since the event was inserted or last replayed. */
  function ClaimsSinceReplay(marks: seq<Mark>): nat {
    if |marks| == 0 || marks[|marks| - 1].Replayed? then 0
    else ClaimsSinceReplay(marks[..|marks| - 1]) + if marks[|marks| - 1].Claimed? then 1 else 0
  }

  /** No markFailed and no replay strictly between two positions. */
  predicate Undisturbed(marks: seq<Mark>, i: int, j: int) {
    forall m :: 0 <= i < m < j <= |marks| && m < |marks| ==> marks[m].Claimed?
  }

  /** Claims with neither a markFailed nor a replay between them are at least the lease apart. */
  predicate LeasesApart(marks: seq<Mark>, lease: nat) {
    forall i, j :: 0 <= i < j < |marks| && marks[i].Claimed? && marks[j].Claimed? && Undisturbed(marks, i, j)
      ==> marks[j].time - marks[i].time >= lease
  }

  /** A row whose last mark is a claim is leased from then on, or done. */
  predicate LeaseMatches(row: Event, marks: seq<Mark>, lease: nat) {
    |marks| > 0 && marks[|marks| - 1].Claimed? ==>
      row.status == Processed || (row.status == Processing && row.due == At(marks[|marks| - 1].time + lease))
  }

  // ---------------------------------------------------------------- the invariant

  predicate EventOk(s: State, e: EventId)
    requires e in s.outbox
  {
    && e in s.written && e in s.marks
    && (s.outbox[e].status == Processed ==> e in s.inbox)
    && s.outbox[e].attempts == ClaimsSinceReplay(s.marks[e])
    && LeaseMatches(s.outbox[e], s.marks[e], s.lease)
  }

  predicate EventsOk(s: State) {
    forall e :: e in s.outbox ==> EventOk(s, e)
  }

  /** Every written event is still in the outbox or was handled. */
  predicate NothingLost(s: State) {
    && s.marks.Keys == s.written.Keys && s.outbox.Keys <= s.written.Keys
    && forall e :: e in s.written ==> e in s.outbox || e in s.inbox
  }

  predicate MarksOk(s: State) {
    forall e :: e in s.marks ==> LeasesApart(s.marks[e], s.lease)
  }

  /** The inbox and the effects are in step: one effect per handled event, made by its own posting. */
  predicate EffectsOk(s: State) {
    && (forall i :: 0 <= i < |s.effects| ==>
          && s.effects[i].event in s.inbox && s.effects[i].event in s.written
          && s.effects[i].aggregate == s.written[s.effects[i].event])
    && (forall i, j :: 0 <= i < j < |s.effects| ==> s.effects[i].event != s.effects[j].event)
    && (forall e :: e in s.inbox ==> exists i :: 0 <= i < |s.effects| && s.effects[i].event == e)
  }

  predicate WorkerOk(s: State, x: Worker) {
    match x
    case Claiming(now, locked) =>
      && now <= s.clock
      && (forall i :: 0 <= i < |locked| ==> locked[i] in s.outbox && Eligible(s.outbox[locked[i]], now))
      && (forall i, j :: 0 <= i < j < |locked| ==> locked[i] != locked[j])
    case Busy(batch, stage) =>
      && (forall i :: 0 <= i < |batch| ==> batch[i].event in s.written)
      && (stage != Fresh ==> |batch| > 0)
      && (stage == Handled ==> batch[0].event in s.inbox)
      && (stage == InboxClaimed ==> batch[0].event !in s.inbox)
  }

  predicate HasInboxRow(x: Worker) {
    x.Busy? && x.stage == InboxClaimed && |x.batch| > 0
  }

  /** Two workers never hold the same outbox row, nor the same uncommitted inbox row. */
  predicate Apart(x: Worker, y: Worker) {
    && (x.Claiming? && y.Claiming? ==> forall e :: e in x.locked ==> e !in y.locked)
    && (HasInboxRow(x) && HasInboxRow(y) ==> x.batch[0].event != y.batch[0].event)
  }

  predicate WorkersOk(s: State) {
    && (forall w :: w in s.workers ==> WorkerOk(s, s.workers[w]))
    && (forall w, v :: w in s.workers && v in s.workers && w != v ==> Apart(s.workers[w], s.workers[v]))
  }

  predicate Inv(s: State) {
    EventsOk(s) && NothingLost(s) && MarksOk(s) && EffectsOk(s) && WorkersOk(s)
  }

  // ---------------------------------------------------------------- marks step lemmas

  lemma MarkStep(marks: seq<Mark>, mark: Mark)
    ensures ClaimsSinceReplay(marks + [mark]) ==
      if mark.Replayed? then 0 else ClaimsSinceReplay(marks) + if mark.Claimed? then 1 else 0
  {
    assert (marks + [mark])[..|marks|] == marks;
  }

  /** A claim taken at `now` of a row that is due by then keeps the leases apart. */
  lemma MarkKeepsLeases(row: Event, marks: seq<Mark>, mark: Mark, lease: nat)
    requires LeasesApart(marks, lease) && LeaseMatches(row, marks, lease)
    requires mark.Claimed? ==> Eligible(row, mark.time)
    ensures LeasesApart(marks + [mark], lease)
  {
    var after, n := marks + [mark], |marks|;
    forall i, j | 0 <= i < j < |after| && after[i].Claimed? && after[j].Claimed? && Undisturbed(after, i, j)
      ensures after[j].time - after[i].time >= lease
    {
      assert forall m :: i < m < j && m < n ==> after[m] == marks[m];
      if j < n {
        assert Undisturbed(marks, i, j);
      } else if i < n - 1 {
        assert Undisturbed(marks, i, n - 1);
        assert after[n - 1].Claimed?;
      }
    }
  }

  // ---------------------------------------------------------------- step preservation

  /** Changing one worker's own record keeps the invariant when the new record is sound. */
  lemma WorkerStepKeepsInv(s: State, w: WorkerId, x: Worker)
    requires Inv(s) && WorkerOk(s, x)
    requires forall v :: v in s.workers && v != w ==> Apart(x, s.workers[v]) && Apart(s.workers[v], x)
    ensures Inv(SetWorker(s, w, x))
  {
    var s' := SetWorker(s, w, x);
    forall v | v in s'.workers
      ensures WorkerOk(s', s'.workers[v])
    {
      assert v != w ==> WorkerOk(s, s.workers[v]);
    }
    forall v, u | v in s'.workers && u in s'.workers && v != u
      ensures Apart(s'.workers[v], s'.workers[u])
    {
      assert v != w && u != w ==> Apart(s.workers[v], s.workers[u]);
    }
    forall e | e in s'.outbox ensures EventOk(s', e) { assert EventOk(s, e); }
  }

  lemma LockKeepsInv(s: State, w: WorkerId, e: EventId)
    requires Inv(s) && Enabled(s, LockEvent(w, e))
    ensures Inv(Apply(s, LockEvent(w, e)))
  {
    var x := s.workers[w];
    var y := x.(locked := x.locked + [e]);
    assert WorkerOk(s, x);
    assert e !in x.locked;
    forall v | v in s.workers && v != w
      ensures Apart(y, s.workers[v]) && Apart(s.workers[v], y)
    {
      assert Apart(x, s.workers[v]) && Apart(s.workers[v], x);
      assert s.workers[v].Claiming? ==> e !in s.workers[v].locked;
    }
    WorkerStepKeepsInv(s, w, y);
  }

  lemma StageKeepsInv(s: State, w: WorkerId, stage: Stage)
    requires Inv(s) && w in s.workers && s.workers[w].Busy? && |s.workers[w].batch| > 0
    requires stage == Handled ==> Head(s, w).event in s.inbox
    requires stage == InboxClaimed ==> Head(s, w).event !in s.inbox && !InboxHeld(s, Head(s, w).event)
    ensures Inv(SetStage(s, w, stage))
  {
    var x := s.workers[w];
    var y := x.(stage := stage);
    assert WorkerOk(s, x);
    forall v | v in s.workers && v != w
      ensures Apart(y, s.workers[v]) && Apart(s.workers[v], y)
    {
      assert Apart(x, s.workers[v]) && Apart(s.workers[v], x);
      if stage == InboxClaimed && s.workers[v].Busy? && s.workers[v].stage == InboxClaimed {
        assert WorkerOk(s, s.workers[v]);
        assert StandsAt(s, v, InboxClaimed);
      }
    }
    WorkerStepKeepsInv(s, w, y);
  }

  lemma NextEventKeepsInv(s: State, w: WorkerId)
    requires Inv(s) && w in s.workers && s.workers[w].Busy? && |s.workers[w].batch| > 0
    ensures Inv(NextEvent(s, w))
  {
    var x := s.workers[w];
    assert WorkerOk(s, x);
    WorkerStepKeepsInv(s, w, Busy(x.batch[1..], Fresh));
  }

  /** Rewriting one unlocked row, with the mark it leaves, keeps the invariant. */
  lemma RowStepKeepsInv(s: State, s': State, e: EventId, row: Event, mark: seq<Mark>)
    requires Inv(s) && !EventLocked(s, e) && e in s.outbox && e in s.marks && |mark| <= 1
    requires s' == s.(outbox := s.outbox[e := row], marks := s.marks[e := s.marks[e] + mark])
    requires row.status == Processed ==> e in s.inbox
    requires row.attempts == ClaimsSinceReplay(s.marks[e] + mark)
    requires mark != [] ==> !mark[0].Claimed?
    requires mark == [] ==> LeaseMatches(row, s.marks[e], s.lease)
    ensures Inv(s')
  {
    hide EventsOk, NothingLost, EffectsOk, WorkersOk, LeasesApart, LeaseMatches, ClaimsSinceReplay, EventLocked;
    RowStepKeepsWorkers(s, s', e);
    RowStepKeepsMarks(s, e, mark);
    RowStepKeepsEvents(s, s', e, row, mark);
    SameEffects(s, s');
  }

  lemma SameEffects(s: State, s': State)
    requires EffectsOk(s) && s'.inbox == s.inbox && s'.effects == s.effects && s'.written == s.written
    ensures EffectsOk(s')
  {
  }

  lemma RowStepKeepsEvents(s: State, s': State, e: EventId, row: Event, mark: seq<Mark>)
    requires EventsOk(s) && NothingLost(s) && e in s.outbox && e in s.marks && |mark| <= 1
    requires s' == s.(outbox := s.outbox[e := row], marks := s.marks[e := s.marks[e] + mark])
    requires row.status == Processed ==> e in s.inbox
    requires row.attempts == ClaimsSinceReplay(s.marks[e] + mark)
    requires mark != [] ==> !mark[0].Claimed?
    requires mark == [] ==> LeaseMatches(row, s.marks[e], s.lease)
    ensures EventsOk(s') && NothingLost(s')
  {
    hide ClaimsSinceReplay;
    assert EventOk(s, e);
    assert mark == [] ==> s.marks[e] + mark == s.marks[e];
    assert EventOk(s', e);
    forall x | x in s'.outbox ensures EventOk(s', x) { assert x != e ==> EventOk(s, x); }
  }

  lemma RowStepKeepsMarks(s: State, e: EventId, mark: seq<Mark>)
    requires MarksOk(s) && EventsOk(s) && e in s.outbox && e in s.marks
    requires |mark| <= 1 && (mark != [] ==> !mark[0].Claimed?)
    ensures LeasesApart(s.marks[e] + mark, s.lease)
  {
    assert EventOk(s, e);
    if mark == [] {
      assert s.marks[e] + mark == s.marks[e];
    } else {
      assert mark == [mark[0]];
      MarkKeepsLeases(s.outbox[e], s.marks[e], mark[0], s.lease);
    }
  }

  lemma RowStepKeepsWorkers(s: State, s': State, e: EventId)
    requires WorkersOk(s) && !EventLocked(s, e)
    requires s'.workers == s.workers && s'.clock == s.clock && s'.inbox == s.inbox && s'.written == s.written
    requires s'.outbox.Keys == s.outbox.Keys && forall x :: x in s.outbox && x != e ==> s'.outbox[x] == s.outbox[x]
    ensures WorkersOk(s')
  {
    forall v | v in s'.workers
      ensures WorkerOk(s', s'.workers[v])
    {
      assert WorkerOk(s, s.workers[v]);
      assert s.workers[v].Claiming? ==> e !in s.workers[v].locked;
    }
  }

  /** markProcessed by a worker whose consumer already holds the inbox row. */
  lemma ProcessedKeepsInv(s: State, e: EventId)
    requires Inv(s) && !EventLocked(s, e) && e in s.inbox
    ensures Inv(SetRow(s, e, row => ProcessedRow(row, s.clock)))
  {
    if e in s.outbox {
      var row := ProcessedRow(s.outbox[e], s.clock);
      var s' := s.(outbox := s.outbox[e := row], marks := s.marks[e := s.marks[e] + []]);
      assert EventOk(s, e);
      assert s.marks[e] + [] == s.marks[e] && s.marks[e := s.marks[e]] == s.marks;
      RowStepKeepsInv(s, s', e, row, []);
    }
  }

  lemma FailedKeepsInv(s: State, e: EventId, due: Due)
    requires Inv(s) && !EventLocked(s, e)
    ensures Inv(AddMark(SetRow(s, e, row => FailedRow(row, due)), e, StatusIs(s, e, Processing), Retried))
  {
    if e in s.outbox {
      assert EventOk(s, e);
      var row := FailedRow(s.outbox[e], due);
      if StatusIs(s, e, Processing) {
        MarkStep(s.marks[e], Retried);
        var s' := s.(outbox := s.outbox[e := row], marks := s.marks[e := s.marks[e] + [Retried]]);
        RowStepKeepsInv(s, s', e, row, [Retried]);
      } else {
        assert s.outbox[e := row] == s.outbox;
      }
    }
  }

  lemma ReplayKeepsInv(s: State, e: EventId)
    requires Inv(s) && !EventLocked(s, e)
    ensures Inv(Apply(s, Replay(e)))
  {
    if e in s.outbox {
      assert EventOk(s, e);
      var row := ReplayedRow(s.outbox[e]);
      if Parked(s.outbox[e]) {
        MarkStep(s.marks[e], Replayed);
        var s' := s.(outbox := s.outbox[e := row], marks := s.marks[e := s.marks[e] + [Replayed]]);
        RowStepKeepsInv(s, s', e, row, [Replayed]);
      } else {
        assert s.outbox[e := row] == s.outbox;
      }
    }
  }

  lemma ClaimKeepsEvent(s: State, w: WorkerId, e: EventId)
    requires Inv(s) && Enabled(s, CommitClaim(w)) && e in s.outbox
    ensures EventOk(ClaimLocked(s, w), e)
  {
    assert EventOk(s, e) && WorkerOk(s, s.workers[w]);
    MarkStep(s.marks[e], Claimed(s.workers[w].now));
  }

  lemma ClaimKeepsMarks(s: State, w: WorkerId, e: EventId)
    requires Inv(s) && Enabled(s, CommitClaim(w)) && e in s.marks
    ensures LeasesApart(ClaimLocked(s, w).marks[e], s.lease)
  {
    var now, locked := s.workers[w].now, s.workers[w].locked;
    assert LeasesApart(s.marks[e], s.lease);
    assert WorkerOk(s, s.workers[w]);
    if e in locked && e in s.outbox {
      assert EventOk(s, e);
      MarkKeepsLeases(s.outbox[e], s.marks[e], Claimed(now), s.lease);
    }
  }

  lemma ClaimKeepsWorkers(s: State, w: WorkerId)
    requires Inv(s) && Enabled(s, CommitClaim(w))
    ensures WorkersOk(ClaimLocked(s, w))
  {
    var s', x := ClaimLocked(s, w), s.workers[w];
    assert WorkerOk(s, x);
    forall v | v in s'.workers
      ensures WorkerOk(s', s'.workers[v])
    {
      assert WorkerOk(s, s.workers[v]);
      if v != w {
        assert Apart(x, s.workers[v]);
      } else {
        assert forall i :: 0 <= i < |x.locked| ==> EventOk(s, x.locked[i]);
      }
    }
    forall v, u | v in s'.workers && u in s'.workers && v != u
      ensures Apart(s'.workers[v], s'.workers[u])
    {
      assert Apart(s.workers[v], s.workers[u]);
    }
  }

  lemma ClaimKeepsInv(s: State, w: WorkerId)
    requires Inv(s) && Enabled(s, CommitClaim(w))
    ensures Inv(ClaimLocked(s, w))
  {
    hide WorkersOk, EventOk, LeasesApart;
    var s' := ClaimLocked(s, w);
    forall e | e in s'.outbox ensures EventOk(s', e) { ClaimKeepsEvent(s, w, e); }
    forall e | e in s'.marks ensures LeasesApart(s'.marks[e], s'.lease) { ClaimKeepsMarks(s, w, e); }
    assert s'.marks.Keys == s.marks.Keys;
    ClaimKeepsWorkers(s, w);
    SameEffects(s, s');
  }

  /** A new effect and its inbox row, while no worker has an uncommitted row for the event. */
  lemma EffectKeepsInv(s: State, e: EventId)
    requires Inv(s) && e in s.written && e !in s.inbox
    requires forall v :: v in s.workers && HasInboxRow(s.workers[v]) ==> s.workers[v].batch[0].event != e
    ensures Inv(s.(inbox := s.inbox + {e}, effects := s.effects + [Effect(e, s.written[e])]))
  {
    var s' := s.(inbox := s.inbox + {e}, effects := s.effects + [Effect(e, s.written[e])]);
    EffectsGrow(s, e);
    forall x | x in s'.outbox ensures EventOk(s', x) { assert EventOk(s, x); }
    forall v | v in s'.workers ensures WorkerOk(s', s'.workers[v]) { assert WorkerOk(s, s.workers[v]); }
  }

  lemma EffectsGrow(s: State, e: EventId)
    requires EffectsOk(s) && e in s.written && e !in s.inbox
    ensures EffectsOk(s.(inbox := s.inbox + {e}, effects := s.effects + [Effect(e, s.written[e])]))
  {
    var s' := s.(inbox := s.inbox + {e}, effects := s.effects + [Effect(e, s.written[e])]);
    assert s'.effects[|s.effects|].event == e;
    forall x | x in s'.inbox
      ensures exists i :: 0 <= i < |s'.effects| && s'.effects[i].event == x
    {
      if x != e {
        var i :| 0 <= i < |s.effects| && s.effects[i].event == x;
        assert s'.effects[i].event == x;
      }
    }
  }

  lemma UncommittedRow(s: State, w: WorkerId)
    requires Inv(s) && Enabled(s, ConsumeCommit(w))
    ensures var e, before := Head(s, w).event, SetStage(s, w, Fresh);
      && e !in s.inbox
      && forall v :: v in before.workers && HasInboxRow(before.workers[v]) ==> before.workers[v].batch[0].event != e
  {
    var e, before := Head(s, w).event, SetStage(s, w, Fresh);
    assert WorkerOk(s, s.workers[w]);
    forall v | v in before.workers && HasInboxRow(before.workers[v])
      ensures before.workers[v].batch[0].event != e
    {
      assert Apart(s.workers[w], s.workers[v]);
    }
  }

  /** The consumer's commit: give the uncommitted inbox row up, then record it with its effect. */
  lemma ConsumeCommitKeepsInv(s: State, w: WorkerId)
    requires Inv(s) && Enabled(s, ConsumeCommit(w))
    ensures Inv(Apply(s, ConsumeCommit(w)))
  {
    hide Inv, HasInboxRow;
    var e, before := Head(s, w).event, SetStage(s, w, Fresh);
    UncommittedRow(s, w);
    StageKeepsInv(s, w, Fresh);
    EffectKeepsInv(before, e);
    var recorded := before.(inbox := s.inbox + {e}, effects := s.effects + [Effect(e, s.written[e])]);
    StageKeepsInv(recorded, w, Handled);
    assert SetStage(recorded, w, Handled).workers == SetStage(s, w, Handled).workers;
  }

  lemma InsertKeepsInv(s: State, e: EventId, aggregate: Aggregate)
    requires Inv(s) && Enabled(s, Insert(e, aggregate))
    ensures Inv(Apply(s, Insert(e, aggregate)))
  {
    var s' := Apply(s, Insert(e, aggregate));
    forall x | x in s'.outbox ensures EventOk(s', x) { assert x != e ==> EventOk(s, x); }
    forall v | v in s'.workers ensures WorkerOk(s', s'.workers[v]) { assert WorkerOk(s, s.workers[v]); }
  }

  lemma PurgeKeepsInv(s: State, e: EventId)
    requires Inv(s) && StatusIs(s, e, Processed)
    ensures Inv(s.(outbox := s.outbox - {e}))
  {
    var s' := s.(outbox := s.outbox - {e});
    assert EventOk(s, e);
    forall x | x in s'.outbox ensures EventOk(s', x) { assert EventOk(s, x); }
    forall v | v in s'.workers ensures WorkerOk(s', s'.workers[v]) { assert WorkerOk(s, s.workers[v]); }
  }

  lemma AbandonAndTickKeepInv(s: State, w: WorkerId, ms: nat)
    requires Inv(s)
    ensures Inv(s.(workers := s.workers - {w})) && Inv(s.(clock := s.clock + ms))
  {
    var a, b := s.(workers := s.workers - {w}), s.(clock := s.clock + ms);
    forall x | x in s.outbox ensures EventOk(a, x) && EventOk(b, x) { assert EventOk(s, x); }
    forall v | v in s.workers
      ensures WorkerOk(a, s.workers[v]) && WorkerOk(b, s.workers[v])
    {
      assert WorkerOk(s, s.workers[v]);
    }
  }

  lemma BusyHoldsNoRow(s: State, w: WorkerId, x: Worker, e: EventId)
    requires !EventLocked(s, e) && x.Busy?
    ensures !EventLocked(SetWorker(s, w, x), e)
  {
  }

  /** A worker that has handled the head of its batch sees its inbox row. */
  lemma HandledIsInInbox(s: State, w: WorkerId)
    requires Inv(s) && StandsAt(s, w, Handled)
    ensures Head(s, w).event in s.inbox
  {
    assert WorkerOk(s, s.workers[w]);
  }

  lemma MarkProcessedKeepsInv(s: State, w: WorkerId)
    requires Inv(s) && StandsAt(s, w, Handled) && !EventLocked(s, Head(s, w).event)
    ensures Inv(SetRow(NextEvent(s, w), Head(s, w).event, row => ProcessedRow(row, s.clock)))
    ensures Inv(SetRow(SetStage(s, w, Broken), Head(s, w).event, row => ProcessedRow(row, s.clock)))
  {
    hide Inv, EventLocked, ProcessedRow;
    var e := Head(s, w).event;
    HandledIsInInbox(s, w);
    NextEventKeepsInv(s, w);
    BusyHoldsNoRow(s, w, Busy(s.workers[w].batch[1..], Fresh), e);
    ProcessedKeepsInv(NextEvent(s, w), e);
    StageKeepsInv(s, w, Broken);
    BusyHoldsNoRow(s, w, s.workers[w].(stage := Broken), e);
    ProcessedKeepsInv(SetStage(s, w, Broken), e);
  }

  lemma MarkFailedKeepsInv(s: State, w: WorkerId, retryAt: int)
    requires Inv(s) && Enabled(s, MarkFailed(w, retryAt))
    ensures Inv(Apply(s, MarkFailed(w, retryAt)))
  {
    hide Inv, EventLocked, FailedRow;
    var e := Head(s, w).event;
    NextEventKeepsInv(s, w);
    BusyHoldsNoRow(s, w, Busy(s.workers[w].batch[1..], Fresh), e);
    FailedKeepsInv(NextEvent(s, w), e, NextDue(Head(s, w).attempts, s.maxAttempts, retryAt));
  }

  /** The steps a busy worker takes with the first event of its batch. */
  lemma BusyStepKeepsInv(s: State, a: Action)
    requires Inv(s) && Enabled(s, a)
    requires
      || a.ConsumeClaim? || a.HandlerFails? || a.MarkProcessed?
      || a.MarkProcessedUnconfirmed? || a.MarkProcessedFails? || a.MarkFailed?
    ensures Inv(Apply(s, a))
  {
    hide Inv, EventLocked, ProcessedRow, FailedRow;
    var w, e := a.w, Head(s, a.w).event;
    match a
    case ConsumeClaim(_) => StageKeepsInv(s, w, if e in s.inbox then Handled else InboxClaimed);
    case HandlerFails(_) => StageKeepsInv(s, w, Broken);
    case MarkProcessedFails(_) => StageKeepsInv(s, w, Broken);
    case MarkProcessed(_) => MarkProcessedKeepsInv(s, w);
    case MarkProcessedUnconfirmed(_) => MarkProcessedKeepsInv(s, w);
    case MarkFailed(_, retryAt) => MarkFailedKeepsInv(s, w, retryAt);
  }

  lemma BeginKeepsInv(s: State, w: WorkerId)
    requires Inv(s)
    ensures Inv(SetWorker(s, w, Claiming(s.clock, [])))
  {
    WorkerStepKeepsInv(s, w, Claiming(s.clock, []));
  }

  /** Every step keeps the invariant. */
  lemma NextKeepsInv(s: State, a: Action)
    requires Inv(s) && Enabled(s, a)
    ensures Inv(Apply(s, a))
  {
    hide Inv;
    match a
    case Insert(e, aggregate) => InsertKeepsInv(s, e, aggregate);
    case BeginClaim(w) => BeginKeepsInv(s, w);
    case LockEvent(w, e) => LockKeepsInv(s, w, e);
    case CommitClaim(w) => ClaimKeepsInv(s, w);
    case ConsumeCommit(w) => ConsumeCommitKeepsInv(s, w);
    case Abandon(w) => AbandonAndTickKeepInv(s, w, 0);
    case Replay(e) => ReplayKeepsInv(s, e);
    case PurgeProcessed(e, cutoff) => if StatusIs(s, e, Processed) { PurgeKeepsInv(s, e); }
    case Tick(ms) => AbandonAndTickKeepInv(s, 0, ms);
    case _ => BusyStepKeepsInv(s, a);
  }

  /** Every state of every run satisfies the invariant. */
  lemma {:induction false} Reachable(states: seq<State>, actions: seq<Action>, i: nat)
    requires IsRun(states, actions) && i <= |actions|
    ensures Inv(states[i]) && states[i].lease == states[0].lease && states[i].maxAttempts == states[0].maxAttempts
  {
    if i > 0 {
      Reachable(states, actions, i - 1);
      assert StepAt(states, actions, i - 1);
      NextKeepsInv(states[i - 1], actions[i - 1]);
    }
  }

  // ---------------------------------------------------------------- what may still happen

  /** A list of actions, each enabled in its turn, and the state they lead to. */
  ghost predicate Leads(s: State, acts: seq<Action>, t: State)
    decreases |acts|
  {
    if acts == [] then s == t else Enabled(s, acts[0]) && Leads(Apply(s, acts[0]), acts[1..], t)
  }

  lemma LeadsOne(s: State, a: Action)
    requires Enabled(s, a)
    ensures Leads(s, [a], Apply(s, a))
  {
    hide Enabled, Apply;
    assert [a][1..] == [];
  }

  lemma {:induction false} LeadsOn(s: State, first: seq<Action>, t: State, second: seq<Action>, u: State)
    requires Leads(s, first, t) && Leads(t, second, u)
    ensures Leads(s, first + second, u)
    decreases |first|
  {
    hide Enabled, Apply;
    if first == [] {
      assert [] + second == second;
    } else {
      LeadsOn(Apply(s, first[0]), first[1..], t, second, u);
      assert (first + second)[1..] == first[1..] + second;
    }
  }

  lemma LeadsThen(s: State, first: seq<Action>, t: State, a: Action)
    requires Leads(s, first, t) && Enabled(t, a)
    ensures Leads(s, first + [a], Apply(t, a))
  {
    hide Enabled, Apply;
    LeadsOne(t, a);
    LeadsOn(s, first, t, [a], Apply(t, a));
  }

  /** What may still happen makes a run longer. */
  lemma {:induction false} RunGoesOn(states: seq<State>, actions: seq<Action>, acts: seq<Action>, t: State)
    returns (more: seq<State>)
    requires IsRun(states, actions) && Leads(states[|actions|], acts, t)
    ensures IsRun(more, actions + acts) && states <= more && more[|actions + acts|] == t
    decreases |acts|
  {
    hide Enabled, Apply;
    if acts == [] {
      assert actions + acts == actions;
      more := states;
    } else {
      var next, done := states + [Apply(states[|actions|], acts[0])], actions + [acts[0]];
      forall i | 0 <= i < |done| ensures StepAt(next, done, i) { assert i < |actions| ==> StepAt(states, actions, i); }
      more := RunGoesOn(next, done, acts[1..], t);
      assert done + acts[1..] == actions + acts;
    }
  }
}
