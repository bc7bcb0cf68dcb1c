/**
 * The outbox store, the audit consumer and one poll of the worker, as the code runs them.  Rows and
 * their updates are those of the delivery state machine.
 */
module Outbox {
  import opened Backoff
  import opened Basics
  import opened Batches
  import opened Delivery

  // ---------------------------------------------------------------- statements on many rows

  /** What claimBatch's WHERE clause selects, rows locked by other claimers skipped. */
  function Claimable(rows: map<EventId, Event>, now: int, skipped: set<EventId>): (keys: set<EventId>)
    ensures keys <= rows.Keys
  {
    set e | e in rows && Eligible(rows[e], now) && e !in skipped
  }

  function ParkedKeys(rows: map<EventId, Event>): set<EventId> {
    set e | e in rows && Parked(rows[e])
  }

  function ReplayRows(rows: map<EventId, Event>): map<EventId, Event> {
    map e | e in rows :: ReplayedRow(rows[e])
  }

  /** Processed, and past the retention window. */
  function ProcessedBefore(cutoff: int): Event -> bool {
    (row: Event) => row.status == Processed && row.processedAt < cutoff
  }

  predicate Distinct(s: seq<EventId>) {
    forall i, j :: 0 <= i < j < |s| ==> s[i] != s[j]
  }

  function Members(s: seq<EventId>): set<EventId> {
    set e | e in s
  }

  /** The elements of a set in some order. */
  method Listed(keys: set<EventId>) returns (s: seq<EventId>)
    ensures Distinct(s) && forall e :: e in s <==> e in keys
  {
    s := [];
    var rest := keys;
    while rest != {}
      invariant rest <= keys && Distinct(s)
      invariant forall e :: e in s <==> e in keys && e !in rest
      decreases |rest|
    {
      var e :| e in rest;
      s, rest := s + [e], rest - {e};
    }
  }

  /** A row a claim may take: unfinished, and neither parked, nor waiting, nor leased any more. */
  predicate DueBy(row: Event, now: int) {
    && (row.status == Pending || row.status == Failed || row.status == Processing)
    && row.due != Never && (row.due.At? ==> row.due.time <= now)
  }

  /**
   * A claim takes due rows that nobody has locked, the oldest of them up to the limit and all of them
   * below it; it leases and counts what it takes and leaves every other row alone.
   */
  ghost predicate ClaimsTheOldestDue(before: map<EventId, Event>, after: map<EventId, Event>,
                                     createdAt: map<EventId, int>, claimed: seq<EventId>, now: int, lease: nat,
                                     skipped: set<EventId>, limit: nat)
    requires before.Keys <= createdAt.Keys
  {
    && after.Keys == before.Keys && |claimed| <= limit
    && (forall e :: e in claimed ==> e in before && e !in skipped && DueBy(before[e], now))
    && (forall e :: e in claimed ==>
          after[e] == Event(Processing, before[e].attempts + 1, At(now + lease), before[e].processedAt))
    && (forall e :: e in before && e !in claimed ==> after[e] == before[e])
    && (forall e :: e in before && e !in skipped && e !in claimed && DueBy(before[e], now) ==>
          |claimed| == limit && forall f :: f in claimed ==> createdAt[f] <= createdAt[e])
  }

  lemma DistinctCount(s: seq<EventId>)
    requires Distinct(s)
    ensures |Members(s)| == |s|
  {
    if |s| > 0 {
      var prefix, last := s[..|s| - 1], s[|s| - 1];
      DistinctCount(prefix);
      assert last !in Members(prefix) by {
        assert forall i :: 0 <= i < |prefix| ==> s[i] != last;
      }
      assert Members(s) == Members(prefix) + {last};
    }
  }

  lemma OldestAreTheOldestDue(before: map<EventId, Event>, createdAt: map<EventId, int>, claimed: seq<EventId>,
                              now: int, lease: nat, skipped: set<EventId>, limit: nat)
    requires before.Keys <= createdAt.Keys && Distinct(claimed)
    requires IsOldest(Members(claimed), Claimable(before, now, skipped), createdAt, limit)
    ensures ClaimsTheOldestDue(before, ClaimRows(before, claimed, now, lease), createdAt, claimed, now, lease,
                               skipped, limit)
  {
    DistinctCount(claimed);
    assert forall e :: e in claimed <==> e in Members(claimed);
    var due := Claimable(before, now, skipped);
    forall e | e in due && e !in claimed
      ensures |claimed| == limit
    {
      SubsetCount(Members(claimed), due);
    }
  }

  // ---------------------------------------------------------------- the store

  class Store {
    const lease: nat
    var rows: map<EventId, Event>
    var createdAt: map<EventId, int>
    var aggregates: map<EventId, Aggregate>
    var clock: int

    predicate Valid()
      reads this
    {
      rows.Keys <= createdAt.Keys && rows.Keys <= aggregates.Keys
    }

    constructor (lease: nat, clock: int)
      ensures Valid() && rows == map[] && this.lease == lease && this.clock == clock
    {
      this.lease, this.clock, rows, createdAt, aggregates := lease, clock, map[], map[], map[];
    }

    /** The oldest eligible events, at most `limit`, each leased and its attempt counted. */
    method ClaimBatch(limit: nat, skipped: set<EventId>) returns (batch: seq<Claim>, ghost claimed: seq<EventId>)
      requires Valid()
      modifies this`rows
      ensures Valid()
      ensures Distinct(claimed) && batch == Claims(old(rows), claimed)
      ensures IsOldest(Members(claimed), Claimable(old(rows), clock, skipped), createdAt, limit)
      ensures rows == ClaimRows(old(rows), claimed, clock, lease)
      ensures ClaimsTheOldestDue(old(rows), rows, createdAt, claimed, clock, lease, skipped, limit)
    {
      ghost var before := rows;
      var taken := TakeOldest(Claimable(rows, clock, skipped), createdAt, limit);
      var order := Listed(taken);
      batch, claimed := Claims(rows, order), order;
      assert Members(order) == taken;
      rows := ClaimRows(rows, order, clock, lease);
      OldestAreTheOldestDue(before, createdAt, claimed, clock, lease, skipped, limit);
    }

    method MarkProcessed(e: EventId)
      modifies this`rows
      ensures rows == if e in old(rows) then old(rows)[e := ProcessedRow(old(rows)[e], clock)] else old(rows)
      ensures e in old(rows) && old(rows)[e].status == Processing ==>
        rows == old(rows)[e := old(rows)[e].(status := Processed, processedAt := clock)]
      ensures e !in old(rows) || old(rows)[e].status != Processing ==> rows == old(rows)
    {
      if e in rows && rows[e].status == Processing {
        rows := rows[e := rows[e].(status := Processed, processedAt := clock)];
      }
    }

    method MarkFailed(e: EventId, due: Due)
      modifies this`rows
      ensures rows == if e in old(rows) then old(rows)[e := FailedRow(old(rows)[e], due)] else old(rows)
      ensures e in old(rows) && old(rows)[e].status == Processing ==>
        rows == old(rows)[e := old(rows)[e].(status := Failed, due := due)]
      ensures e !in old(rows) || old(rows)[e].status != Processing ==> rows == old(rows)
    {
      if e in rows && rows[e].status == Processing {
        rows := rows[e := rows[e].(status := Failed, due := due)];
      }
    }

    /** Only a parked event is replayed, and only then is the answer true. */
    method Replay(e: EventId) returns (replayed: bool)
      modifies this`rows
      ensures replayed <==> e in old(rows) && Parked(old(rows)[e])
      ensures rows == if e in old(rows) then old(rows)[e := ReplayedRow(old(rows)[e])] else old(rows)
      ensures replayed ==> rows == old(rows)[e := old(rows)[e].(status := Pending, attempts := 0, due := Immediately)]
      ensures !replayed ==> rows == old(rows)
    {
      replayed := e in rows && rows[e].status == Failed && rows[e].due == Never;
      if replayed {
        rows := rows[e := rows[e].(status := Pending, attempts := 0, due := Immediately)];
      }
    }

    method ReplayAllParked() returns (count: nat)
      modifies this`rows
      ensures rows == ReplayRows(old(rows)) && count == |ParkedKeys(old(rows))|
      ensures ParkedKeys(rows) == {}
    {
      var parked := ParkedKeys(rows);
      rows := map e | e in rows ::
        if e in parked then rows[e].(status := Pending, attempts := 0, due := Immediately) else rows[e];
      count := |parked|;
    }

    /** The retention sweep: removes exactly the processed rows older than the cutoff, oldest first, in batches. */
    method PurgeProcessedBefore(cutoff: int, batchSize: nat) returns (removed: nat)
      requires batchSize > 0
      modifies this`rows
      ensures forall e :: e in rows <==>
        e in old(rows) && !(old(rows)[e].status == Processed && old(rows)[e].processedAt < cutoff)
      ensures forall e :: e in rows ==> rows[e] == old(rows)[e]
      ensures removed == |old(rows)| - |rows|
    {
      hide Kept, IsOldest;
      removed := 0;
      var expired := ProcessedBefore(cutoff);
      while true
        invariant Kept(rows, expired) == Kept(old(rows), expired)
        invariant removed + |Expired(rows, expired)| == |Expired(old(rows), expired)|
        decreases |Expired(rows, expired)|
      {
        var keys := Expired(rows, expired);
        var age := map e | e in keys :: rows[e].processedAt;
        var batch := TakeOldest(keys, age, batchSize);
        RemoveBatch(rows, expired, batch, age, batchSize);
        rows := rows - batch;
        removed := removed + |batch|;
        if |batch| < batchSize { break; }
      }
      SweptRows(old(rows), expired);
    }
  }

  // ---------------------------------------------------------------- the audit consumer

  /** One effect for each event in the inbox, and none for any other. */
  predicate OneEffectEach(inbox: set<EventId>, effects: seq<Effect>) {
    && (forall i :: 0 <= i < |effects| ==> effects[i].event in inbox)
    && (forall i, j :: 0 <= i < j < |effects| ==> effects[i].event != effects[j].event)
    && (forall e :: e in inbox ==> exists i :: 0 <= i < |effects| && effects[i].event == e)
  }

  /**
   * How the consumer's transaction ends: committed, undone by a failure, or committed with the
   * answer lost, so that the caller hears a failure all the same.
   */
  datatype Ending = Committed | RolledBack | AnswerLost

  class AuditConsumer {
    var inbox: set<EventId>
    var effects: seq<Effect>

    predicate Valid()
      reads this
    {
      OneEffectEach(inbox, effects)
    }

    constructor ()
      ensures Valid() && inbox == {} && effects == []
    {
      inbox, effects := {}, [];
    }

    /** Inbox row and effect in one transaction. */
    method Consume(e: EventId, aggregate: Aggregate, ending: Ending) returns (r: Result<bool, ()>)
      requires Valid()
      modifies this
      ensures Valid()
      ensures r == if ending.Committed? then Ok(e in old(inbox)) else Err(())
      ensures inbox == if ending.RolledBack? then old(inbox) else old(inbox) + {e}
      ensures effects ==
        if ending.RolledBack? || e in old(inbox) then old(effects) else old(effects) + [Effect(e, aggregate)]
    {
      var inbox0, effects0 := inbox, effects;
      var duplicate := e in inbox;
      if !duplicate {
        inbox := inbox + {e};
        effects := effects + [Effect(e, aggregate)];
        assert effects[|effects0|].event == e;
        forall x | x in inbox
          ensures exists i :: 0 <= i < |effects| && effects[i].event == x
        {
          if x != e {
            var i :| 0 <= i < |effects0| && effects0[i].event == x;
            assert effects[i].event == x;
          }
        }
      }
      if ending.RolledBack? {
        inbox, effects := inbox0, effects0;
      }
      return if ending.Committed? then Ok(duplicate) else Err(());
    }
  }

  // ---------------------------------------------------------------- one poll

  const RETRY_BASE_MS: nat := 100
  const RETRY_CAP_MS: nat := 60_000

  /** `computeNextAttempt`. */
  function NextAttempt(attempts: nat, failedAt: int, draw: Draw): int
    requires attempts >= 1
  {
    failedAt + Delay(RETRY_BASE_MS, RETRY_CAP_MS, attempts, draw)
  }

  /**
   * A failed event waits at least 50 ms and at most a minute, at least 100 ms from the second attempt
   * on, and jitter aside never less than after fewer attempts.
   */
  lemma NextAttemptBounds(attempts: nat, more: nat, failedAt: int, draw: Draw)
    requires 1 <= attempts <= more && Drawn(draw)
    ensures failedAt + 50 <= NextAttempt(attempts, failedAt, draw) <= failedAt + RETRY_CAP_MS
    ensures attempts >= 2 ==> failedAt + 100 <= NextAttempt(attempts, failedAt, draw)
    ensures Unjittered(RETRY_BASE_MS, RETRY_CAP_MS, attempts) <= Unjittered(RETRY_BASE_MS, RETRY_CAP_MS, more)
    ensures var whole := if attempts <= 10 then 100 * Pow2(attempts - 1) else 60_000;
      failedAt + whole / 2 <= NextAttempt(attempts, failedAt, draw) <= failedAt + whole
  {
    WholeDelay(attempts);
    DelayBounds(RETRY_BASE_MS, RETRY_CAP_MS, attempts, draw);
    BackoffGrows(RETRY_BASE_MS, RETRY_CAP_MS, 1, attempts);
    BackoffGrows(RETRY_BASE_MS, RETRY_CAP_MS, attempts, more);
    FirstDelays();
    if attempts >= 2 { BackoffGrows(RETRY_BASE_MS, RETRY_CAP_MS, 2, attempts); }
  }

  /** 100 ms doubled with every attempt; from the eleventh on, a minute. */
  lemma WholeDelay(attempts: nat)
    requires attempts >= 1
    ensures Unjittered(RETRY_BASE_MS, RETRY_CAP_MS, attempts) ==
      if attempts <= 10 then 100 * Pow2(attempts - 1) else 60_000
  {
    assert Pow2(4) == 16 && Pow2(7) == 128 && Pow2(9) == 512 && Pow2(10) == 1024;
    if attempts <= 10 { PowGrows(attempts - 1, 9); } else { PowGrows(10, attempts - 1); }
  }

  lemma FirstDelays()
    ensures Unjittered(RETRY_BASE_MS, RETRY_CAP_MS, 1) == 100 && Unjittered(RETRY_BASE_MS, RETRY_CAP_MS, 2) == 200
  {
    assert Pow2(0) == 1 && Pow2(1) == 2;
  }

  /** How `markProcessed` ends; an unconfirmed one took effect all the same. */
  datatype Confirmation = Confirmed | Unconfirmed | NotDone

  /** What goes wrong with one event. */
  datatype Trouble = Trouble(handler: Ending, confirmation: Confirmation, markFailedThrows: bool, draw: Draw)

  /** The event's row after its processing. */
  function SettledRow(row: Event, c: Claim, trouble: Trouble, maxAttempts: nat, now: int): Event {
    var confirmed :=
      if !trouble.handler.Committed? || trouble.confirmation == NotDone then row else ProcessedRow(row, now);
    if trouble.handler.Committed? && trouble.confirmation == Confirmed then confirmed
    else if trouble.markFailedThrows then confirmed
    else FailedRow(confirmed, NextDue(c.attempts, maxAttempts, NextAttempt(c.attempts + 1, now, trouble.draw)))
  }

  /** Marking the event failed is what lets an error escape `processEvent` and end the batch. */
  predicate EndsBatch(trouble: Trouble) {
    (!trouble.handler.Committed? || trouble.confirmation != Confirmed) && trouble.markFailedThrows
  }

  predicate NoneEnded(claimed: seq<EventId>, n: int, troubles: EventId -> Trouble)
    requires n <= |claimed|
  {
    forall i :: 0 <= i < n ==> !EndsBatch(troubles(claimed[i]))
  }

  lemma OneMoreNotEnded(claimed: seq<EventId>, n: nat, troubles: EventId -> Trouble)
    requires n < |claimed| && NoneEnded(claimed, n - 1, troubles) && (n > 0 ==> !EndsBatch(troubles(claimed[n - 1])))
    ensures NoneEnded(claimed, n, troubles)
  {
    hide EndsBatch;
  }

  /** The claimed events one poll got through: those before the first whose error escaped, and that one. */
  predicate GotThrough(claimed: seq<EventId>, done: nat, troubles: EventId -> Trouble) {
    && done <= |claimed|
    && NoneEnded(claimed, done - 1, troubles)
    && (done < |claimed| ==> done > 0 && EndsBatch(troubles(claimed[done - 1])))
  }

  /** What a poll leaves of a row it claimed: settled if it was reached, otherwise leased. */
  function PolledRow(row: Event, e: EventId, reached: bool, trouble: Trouble,
                     maxAttempts: nat, now: int, lease: nat): Event {
    var leased := ClaimRow(row, now, lease);
    if reached then SettledRow(leased, Claim(e, leased.attempts), trouble, maxAttempts, now) else leased
  }

  function PolledRows(rows: map<EventId, Event>, claimed: seq<EventId>, done: nat, troubles: EventId -> Trouble,
                      maxAttempts: nat, now: int, lease: nat): map<EventId, Event>
    requires done <= |claimed|
  {
    map e | e in rows ::
      if e !in claimed then rows[e]
      else PolledRow(rows[e], e, e in claimed[..done], troubles(e), maxAttempts, now, lease)
  }

  /**
   * Processed, or failed and due later, or parked because the budget is spent, or leased until
   * another worker's turn.
   */
  lemma PolledRowEnds(row: Event, e: EventId, reached: bool, trouble: Trouble, maxAttempts: nat, now: int, lease: nat)
    requires Drawn(trouble.draw)
    ensures var after := PolledRow(row, e, reached, trouble, maxAttempts, now, lease);
      && after.attempts == row.attempts + 1
      && (after.status == Processed <==> reached && trouble.handler.Committed? && trouble.confirmation != NotDone)
      && (Parked(after) <==>
            && reached && (!trouble.handler.Committed? || trouble.confirmation == NotDone)
            && !trouble.markFailedThrows && after.attempts >= maxAttempts)
      && (after.status == Failed && !Parked(after) ==>
            after.due.At? && now + 100 <= after.due.time <= now + RETRY_CAP_MS)
      && (after.status == Processing ==> after.due == At(now + lease))
      && after.status != Pending
  {
    NextAttemptBounds(row.attempts + 2, row.attempts + 2, now, trouble.draw);
    hide NextAttempt;
  }

  /** The events one poll handed to the consumer with success. */
  function Consumed(claimed: seq<EventId>, done: nat, troubles: EventId -> Trouble): set<EventId>
    requires done <= |claimed|
  {
    set e | e in claimed[..done] && !troubles(e).handler.RolledBack?
  }

  /** The effects one poll records: one for each event it consumed that was not in the inbox, of its own aggregate. */
  function NewEffects(inbox: set<EventId>, claimed: seq<EventId>, done: nat, troubles: EventId -> Trouble,
                      aggregates: map<EventId, Aggregate>): seq<Effect>
    requires done <= |claimed| && forall e :: e in claimed ==> e in aggregates
  {
    if done == 0 then []
    else
      var e := claimed[done - 1];
      NewEffects(inbox, claimed, done - 1, troubles, aggregates) +
      if troubles(e).handler.RolledBack? || e in inbox then [] else [Effect(e, aggregates[e])]
  }

  lemma NotYetConsumed(claimed: seq<EventId>, done: nat, troubles: EventId -> Trouble)
    requires Distinct(claimed) && done < |claimed|
    ensures claimed[done] !in Consumed(claimed, done, troubles)
  {
  }

  lemma OneMoreConsumed(inbox: set<EventId>, claimed: seq<EventId>, done: nat, troubles: EventId -> Trouble)
    requires done < |claimed|
    ensures inbox + Consumed(claimed, done + 1, troubles) ==
      inbox + Consumed(claimed, done, troubles) +
        if troubles(claimed[done]).handler.RolledBack? then {} else {claimed[done]}
  {
    assert claimed[..done + 1] == claimed[..done] + [claimed[done]];
  }

  lemma OneMorePolled(rows: map<EventId, Event>, claimed: seq<EventId>, done: nat, troubles: EventId -> Trouble,
                      maxAttempts: nat, now: int, lease: nat)
    requires Distinct(claimed) && done < |claimed| && claimed[done] in rows
    ensures var e, before := claimed[done], PolledRows(rows, claimed, done, troubles, maxAttempts, now, lease);
      && e in before
      && PolledRows(rows, claimed, done + 1, troubles, maxAttempts, now, lease) ==
           before[e := SettledRow(before[e], Claim(e, rows[e].attempts + 1), troubles(e), maxAttempts, now)]
  {
    hide SettledRow;
    assert claimed[..done + 1] == claimed[..done] + [claimed[done]];
  }

  lemma NonePolled(rows: map<EventId, Event>, claimed: seq<EventId>, troubles: EventId -> Trouble,
                   maxAttempts: nat, now: int, lease: nat)
    ensures PolledRows(rows, claimed, 0, troubles, maxAttempts, now, lease) == ClaimRows(rows, claimed, now, lease)
    ensures Consumed(claimed, 0, troubles) == {}
  {
  }

  function ClaimOf(rows: map<EventId, Event>, claimed: seq<EventId>, i: nat): Claim
    requires i < |claimed| && claimed[i] in rows
  {
    Claim(claimed[i], rows[claimed[i]].attempts + 1)
  }

  lemma ClaimsAt(rows: map<EventId, Event>, claimed: seq<EventId>)
    requires forall e :: e in claimed ==> e in rows
    ensures |Claims(rows, claimed)| == |claimed|
    ensures forall i :: 0 <= i < |claimed| ==> Claims(rows, claimed)[i] == ClaimOf(rows, claimed, i)
  {
  }

  lemma OldestAreRows(claimed: seq<EventId>, keys: set<EventId>, age: map<EventId, int>, limit: nat)
    requires keys <= age.Keys && IsOldest(Members(claimed), keys, age, limit)
    ensures forall e :: e in claimed ==> e in keys
  {
    assert forall e :: e in claimed ==> e in Members(claimed);
  }

  class Poller {
    const store: Store
    const consumer: AuditConsumer
    const maxAttempts: nat
    const batchSize: nat

    constructor (store: Store, consumer: AuditConsumer, maxAttempts: nat, batchSize: nat)
      ensures this.store == store && this.consumer == consumer
      ensures this.maxAttempts == maxAttempts && this.batchSize == batchSize
    {
      this.store, this.consumer, this.maxAttempts, this.batchSize := store, consumer, maxAttempts, batchSize;
    }

    /**
     * Handle, then mark processed; on any error mark failed, which may itself throw.  The event is
     * handled as it was claimed; if its row is gone by now, marking it changes nothing.
     */
    method ProcessEvent(c: Claim, aggregate: Aggregate, trouble: Trouble) returns (threw: bool)
      requires store.Valid() && consumer.Valid()
      modifies store`rows, consumer
      ensures store.Valid() && consumer.Valid()
      ensures threw == EndsBatch(trouble)
      ensures store.rows ==
        if c.event !in old(store.rows) then old(store.rows)
        else old(store.rows)[c.event := SettledRow(old(store.rows)[c.event], c, trouble, maxAttempts, store.clock)]
      ensures consumer.inbox == old(consumer.inbox) + if trouble.handler.RolledBack? then {} else {c.event}
      ensures consumer.effects == old(consumer.effects) +
        if trouble.handler.RolledBack? || c.event in old(consumer.inbox) then []
        else [Effect(c.event, aggregate)]
    {
      var handled := consumer.Consume(c.event, aggregate, trouble.handler);
      if handled.Ok? {
        if trouble.confirmation != NotDone { store.MarkProcessed(c.event); }
        if trouble.confirmation == Confirmed { return false; }
      }
      if trouble.markFailedThrows { return true; }
      if c.attempts >= maxAttempts {
        store.MarkFailed(c.event, Never);
      } else {
        store.MarkFailed(c.event, At(NextAttempt(c.attempts + 1, store.clock, trouble.draw)));
      }
      return false;
    }

    /** What `Poll` keeps from event to event. */
    ghost predicate Polling(rows0: map<EventId, Event>, inbox0: set<EventId>, effects0: seq<Effect>,
                            claimed: seq<EventId>, done: nat, troubles: EventId -> Trouble)
      requires done <= |claimed|
      reads store, consumer
    {
      && (forall e :: e in claimed ==> e in store.aggregates)
      && store.Valid() && consumer.Valid() && NoneEnded(claimed, done - 1, troubles)
      && store.rows == PolledRows(rows0, claimed, done, troubles, maxAttempts, store.clock, store.lease)
      && consumer.inbox == inbox0 + Consumed(claimed, done, troubles)
      && consumer.effects == effects0 + NewEffects(inbox0, claimed, done, troubles, store.aggregates)
    }

    method ProcessNext(c: Claim, trouble: Trouble, ghost rows0: map<EventId, Event>, ghost inbox0: set<EventId>,
                       ghost effects0: seq<Effect>, ghost claimed: seq<EventId>, ghost done: nat,
                       ghost troubles: EventId -> Trouble)
      returns (threw: bool)
      requires Distinct(claimed) && done < |claimed| && claimed[done] in rows0
      requires c == ClaimOf(rows0, claimed, done) && trouble == troubles(claimed[done])
      requires Polling(rows0, inbox0, effects0, claimed, done, troubles)
      requires done > 0 ==> !EndsBatch(troubles(claimed[done - 1]))
      modifies store`rows, consumer
      ensures Polling(rows0, inbox0, effects0, claimed, done + 1, troubles) && threw == EndsBatch(trouble)
    {
      OneMorePolled(rows0, claimed, done, troubles, maxAttempts, store.clock, store.lease);
      OneMoreConsumed(inbox0, claimed, done, troubles);
      OneMoreNotEnded(claimed, done, troubles);
      NotYetConsumed(claimed, done, troubles);
      hide PolledRows, SettledRow, Consumed, EndsBatch, NoneEnded;
      threw := ProcessEvent(c, store.aggregates[c.event], trouble);
    }

    lemma PollingStarts(rows0: map<EventId, Event>, inbox0: set<EventId>, effects0: seq<Effect>,
                        claimed: seq<EventId>, troubles: EventId -> Trouble)
      requires store.Valid() && consumer.Valid() && consumer.inbox == inbox0 && consumer.effects == effects0
      requires forall e :: e in claimed ==> e in store.aggregates
      requires store.rows == ClaimRows(rows0, claimed, store.clock, store.lease)
      ensures Polling(rows0, inbox0, effects0, claimed, 0, troubles)
    {
      NonePolled(rows0, claimed, troubles, maxAttempts, store.clock, store.lease);
    }

    /**
     * Claim a batch and process it event by event until done or until an error escapes.  A claim
     * that fails leaves everything alone, or its leases taken and nothing processed.
     */
    method Poll(skipped: set<EventId>, claiming: Ending, troubles: EventId -> Trouble)
      returns (ghost claimed: seq<EventId>, done: nat)
      requires store.Valid() && consumer.Valid()
      modifies store`rows, consumer
      ensures store.Valid() && consumer.Valid()
      ensures claiming.RolledBack? ==>
        && store.rows == old(store.rows) && consumer.inbox == old(consumer.inbox)
        && consumer.effects == old(consumer.effects) && claimed == [] && done == 0
      ensures !claiming.RolledBack? ==>
        && Distinct(claimed) && done <= |claimed| && (forall e :: e in claimed ==> e in store.aggregates)
        && ClaimsTheOldestDue(old(store.rows), ClaimRows(old(store.rows), claimed, store.clock, store.lease),
                              store.createdAt, claimed, store.clock, store.lease, skipped, batchSize)
        && store.rows == PolledRows(old(store.rows), claimed, done, troubles, maxAttempts, store.clock, store.lease)
        && consumer.inbox == old(consumer.inbox) + Consumed(claimed, done, troubles)
        && consumer.effects == old(consumer.effects) +
             NewEffects(old(consumer.inbox), claimed, done, troubles, store.aggregates)
      ensures claiming.Committed? ==> GotThrough(claimed, done, troubles)
      ensures claiming.AnswerLost? ==> done == 0
    {
      hide Claims, Polling, PolledRows, ClaimRows, Claimable, Members, Consumed, EndsBatch, IsOldest;
      hide ClaimsTheOldestDue, NewEffects;
      ghost var rows0, inbox0, effects0 := store.rows, consumer.inbox, consumer.effects;
      done := 0;
      if claiming.RolledBack? { claimed := []; return; }
      var batch;
      batch, claimed := store.ClaimBatch(batchSize, skipped);
      OldestAreRows(claimed, Claimable(rows0, store.clock, skipped), store.createdAt, batchSize);
      ClaimsAt(rows0, claimed);
      PollingStarts(rows0, inbox0, effects0, claimed, troubles);
      var threw := claiming.AnswerLost?;
      while done < |batch| && !threw
        invariant done <= |batch| && Polling(rows0, inbox0, effects0, claimed, done, troubles)
        invariant claiming.Committed? ==> threw == (done > 0 && EndsBatch(troubles(claimed[done - 1])))
        invariant claiming.AnswerLost? ==> threw && done == 0
        decreases |batch| - done
      {
        var c := batch[done];
        threw := ProcessNext(c, troubles(c.event), rows0, inbox0, effects0, claimed, done, troubles);
        done := done + 1;
      }
      PollingEnds(rows0, inbox0, effects0, claimed, done, troubles);
    }

    lemma PollingEnds(rows0: map<EventId, Event>, inbox0: set<EventId>, effects0: seq<Effect>,
                      claimed: seq<EventId>, done: nat, troubles: EventId -> Trouble)
      requires done <= |claimed| && Polling(rows0, inbox0, effects0, claimed, done, troubles)
      ensures store.Valid() && consumer.Valid() && NoneEnded(claimed, done - 1, troubles)
      ensures store.rows == PolledRows(rows0, claimed, done, troubles, maxAttempts, store.clock, store.lease)
      ensures forall e :: e in claimed ==> e in store.aggregates
      ensures consumer.inbox == inbox0 + Consumed(claimed, done, troubles)
      ensures consumer.effects == effects0 + NewEffects(inbox0, claimed, done, troubles, store.aggregates)
    {
    }
  }
}
