/**
 * The outbox code refines the delivery machine: what the store's statements and one whole poll leave
 * in the tables is what a list of the machine's actions leads to.  So everything the machine
 * guarantees over its runs holds of the code that is run.
 */
module OutboxRefinement {
  import opened Basics
  import opened Delivery
  import opened Outbox

  /** `t` is `s` with these tables and worker `w` at this point. */
  ghost predicate Now(t: State, s: State, w: WorkerId, x: Worker, rows: map<EventId, Event>, inbox: set<EventId>,
                      effects: seq<Effect>)
  {
    && t.lease == s.lease && t.maxAttempts == s.maxAttempts && t.batchSize == s.batchSize
    && t.clock == s.clock && t.written == s.written
    && t.outbox == rows && t.inbox == inbox && t.effects == effects && t.workers == s.workers[w := x]
  }

  // ---------------------------------------------------------------- claiming

  function LockActs(w: WorkerId, claimed: seq<EventId>, n: nat): seq<Action>
    requires n <= |claimed|
  {
    if n == 0 then [] else LockActs(w, claimed, n - 1) + [LockEvent(w, claimed[n - 1])]
  }

  function ClaimActs(w: WorkerId, claimed: seq<EventId>): seq<Action> {
    [BeginClaim(w)] + LockActs(w, claimed, |claimed|) + [CommitClaim(w)]
  }

  /** The events are there, due, and neither claimed nor consumed by anybody else at this moment. */
  predicate Takeable(s: State, claimed: seq<EventId>) {
    forall e :: e in claimed ==>
      e in s.outbox && Eligible(s.outbox[e], s.clock) && !EventLocked(s, e) && !InboxHeld(s, e)
  }

  lemma {:induction false} LocksLead(s: State, w: WorkerId, claimed: seq<EventId>, n: nat)
    requires w !in s.workers && Distinct(claimed) && n <= |claimed| <= s.batchSize && Takeable(s, claimed)
    ensures Leads(s, [BeginClaim(w)] + LockActs(w, claimed, n), SetWorker(s, w, Claiming(s.clock, claimed[..n])))
  {
    hide Leads, InboxHeld, Eligible;
    if n == 0 {
      LeadsOne(s, BeginClaim(w));
      assert [BeginClaim(w)] + [] == [BeginClaim(w)] && claimed[..0] == [];
    } else {
      LocksLead(s, w, claimed, n - 1);
      var t, e := SetWorker(s, w, Claiming(s.clock, claimed[..n - 1])), claimed[n - 1];
      assert e in claimed && e !in claimed[..n - 1];
      assert forall v :: v in t.workers && v != w ==> t.workers[v] == s.workers[v];
      LeadsThen(s, [BeginClaim(w)] + LockActs(w, claimed, n - 1), t, LockEvent(w, e));
      assert claimed[..n - 1] + [e] == claimed[..n];
      assert t.workers[w := Claiming(s.clock, claimed[..n])] == s.workers[w := Claiming(s.clock, claimed[..n])];
      assert [BeginClaim(w)] + LockActs(w, claimed, n) ==
        [BeginClaim(w)] + LockActs(w, claimed, n - 1) + [LockEvent(w, e)];
    }
  }

  /** `claimBatch` is one claim of the machine, from BEGIN to COMMIT. */
  lemma ClaimBatchIsRun(s: State, w: WorkerId, claimed: seq<EventId>) returns (t: State)
    requires w !in s.workers && Distinct(claimed) && |claimed| <= s.batchSize && Takeable(s, claimed)
    ensures Leads(s, ClaimActs(w, claimed), t)
    ensures Now(t, s, w, Busy(Claims(s.outbox, claimed), Fresh), ClaimRows(s.outbox, claimed, s.clock, s.lease),
                s.inbox, s.effects)
  {
    hide Leads, Takeable;
    LocksLead(s, w, claimed, |claimed|);
    assert claimed[..|claimed|] == claimed;
    var locked := SetWorker(s, w, Claiming(s.clock, claimed));
    t := Apply(locked, CommitClaim(w));
    LeadsThen(s, [BeginClaim(w)] + LockActs(w, claimed, |claimed|), locked, CommitClaim(w));
  }

  // ---------------------------------------------------------------- one event

  /** Nobody but `w` has the event locked, or its inbox row uncommitted. */
  predicate Alone(s: State, w: WorkerId, e: EventId) {
    forall v :: v in s.workers && v != w ==>
      && (s.workers[v].Claiming? ==> e !in s.workers[v].locked)
      && (HasInboxRow(s.workers[v]) ==> s.workers[v].batch[0].event != e)
  }

  function ConsumeActs(w: WorkerId, ending: Ending, duplicate: bool): seq<Action> {
    if ending.RolledBack? then [HandlerFails(w)]
    else [ConsumeClaim(w)] + (if duplicate then [] else [ConsumeCommit(w)])
         + (if ending.AnswerLost? then [HandlerFails(w)] else [])
  }

  /** The handler: inbox row and effect together or not at all. */
  lemma ConsumeLeads(s: State, t: State, w: WorkerId, batch: seq<Claim>, ending: Ending) returns (u: State)
    requires |batch| > 0 && Now(t, s, w, Busy(batch, Fresh), t.outbox, t.inbox, t.effects)
    requires Alone(t, w, batch[0].event) && batch[0].event in t.written
    ensures var e := batch[0].event;
      && Leads(t, ConsumeActs(w, ending, e in t.inbox), u)
      && Now(u, s, w, Busy(batch, if ending.Committed? then Handled else Broken), t.outbox,
             t.inbox + (if ending.RolledBack? then {} else {e}),
             t.effects + if ending.RolledBack? || e in t.inbox then [] else [Effect(e, t.written[e])])
  {
    hide Leads, Alone;
    var e := batch[0].event;
    if ending.RolledBack? {
      LeadsOne(t, HandlerFails(w));
      u := Apply(t, HandlerFails(w));
    } else {
      u := HandledLeads(s, t, w, batch);
      var acts := [ConsumeClaim(w)] + if e in t.inbox then [] else [ConsumeCommit(w)];
      if ending.AnswerLost? {
        LeadsThen(t, acts, u, HandlerFails(w));
        u := Apply(u, HandlerFails(w));
      } else {
        assert acts + [] == acts;
      }
    }
  }

  /** The consumer's transaction when it commits. */
  lemma HandledLeads(s: State, t: State, w: WorkerId, batch: seq<Claim>) returns (u: State)
    requires |batch| > 0 && Now(t, s, w, Busy(batch, Fresh), t.outbox, t.inbox, t.effects)
    requires Alone(t, w, batch[0].event) && batch[0].event in t.written
    ensures var e := batch[0].event;
      && Leads(t, [ConsumeClaim(w)] + (if e in t.inbox then [] else [ConsumeCommit(w)]), u)
      && Now(u, s, w, Busy(batch, Handled), t.outbox, t.inbox + {e},
             t.effects + if e in t.inbox then [] else [Effect(e, t.written[e])])
  {
    hide Leads;
    var e := batch[0].event;
    assert t.workers[w] == Busy(batch, Fresh) && !InboxHeld(t, e);
    LeadsOne(t, ConsumeClaim(w));
    u := Apply(t, ConsumeClaim(w));
    if e in t.inbox {
      assert t.inbox + {e} == t.inbox && [ConsumeClaim(w)] + [] == [ConsumeClaim(w)];
    } else {
      LeadsThen(t, [ConsumeClaim(w)], u, ConsumeCommit(w));
      u := Apply(u, ConsumeCommit(w));
    }
  }

  function ConfirmActs(w: WorkerId, confirmation: Confirmation): seq<Action> {
    match confirmation
    case Confirmed => [MarkProcessed(w)]
    case Unconfirmed => [MarkProcessedUnconfirmed(w)]
    case NotDone => [MarkProcessedFails(w)]
  }

  function SetRowOf(rows: map<EventId, Event>, e: EventId, row: Event): map<EventId, Event> {
    if e in rows then rows[e := row] else rows
  }

  function RowOf(rows: map<EventId, Event>, e: EventId): Event {
    if e in rows then rows[e] else Event(Pending, 0, Immediately, 0)
  }

  lemma AloneNotLocked(t: State, w: WorkerId, e: EventId)
    requires Alone(t, w, e) && w in t.workers && t.workers[w].Busy?
    ensures !EventLocked(t, e)
  {
  }

  /** markProcessed, confirmed or not, done or not. */
  lemma ConfirmLeads(s: State, t: State, w: WorkerId, batch: seq<Claim>, confirmation: Confirmation)
    returns (u: State)
    requires |batch| > 0 && Now(t, s, w, Busy(batch, Handled), t.outbox, t.inbox, t.effects)
    requires Alone(t, w, batch[0].event)
    ensures Leads(t, ConfirmActs(w, confirmation), u)
    ensures var e := batch[0].event;
      Now(u, s, w, if confirmation.Confirmed? then Busy(batch[1..], Fresh) else Busy(batch, Broken),
          if confirmation.NotDone? then t.outbox
          else SetRowOf(t.outbox, e, ProcessedRow(RowOf(t.outbox, e), s.clock)),
          t.inbox, t.effects)
  {
    hide Leads;
    assert t.workers[w] == Busy(batch, Handled);
    AloneNotLocked(t, w, batch[0].event);
    var a := ConfirmActs(w, confirmation)[0];
    LeadsOne(t, a);
    u := Apply(t, a);
  }

  /** markFailed. */
  lemma FailLeads(s: State, t: State, w: WorkerId, batch: seq<Claim>, retryAt: int) returns (u: State)
    requires |batch| > 0 && Now(t, s, w, Busy(batch, Broken), t.outbox, t.inbox, t.effects)
    requires Alone(t, w, batch[0].event)
    ensures Leads(t, [MarkFailed(w, retryAt)], u)
    ensures var c := batch[0];
      Now(u, s, w, Busy(batch[1..], Fresh),
          SetRowOf(t.outbox, c.event,
                   FailedRow(RowOf(t.outbox, c.event), NextDue(c.attempts, s.maxAttempts, retryAt))),
          t.inbox, t.effects)
  {
    hide Leads;
    assert t.workers[w] == Busy(batch, Broken);
    AloneNotLocked(t, w, batch[0].event);
    LeadsOne(t, MarkFailed(w, retryAt));
    u := Apply(t, MarkFailed(w, retryAt));
  }

  function FailActs(w: WorkerId, c: Claim, trouble: Trouble, now: int): seq<Action> {
    if trouble.markFailedThrows then [] else [MarkFailed(w, NextAttempt(c.attempts + 1, now, trouble.draw))]
  }

  function EventActs(w: WorkerId, c: Claim, trouble: Trouble, duplicate: bool, now: int): seq<Action> {
    ConsumeActs(w, trouble.handler, duplicate) +
    if !trouble.handler.Committed? then FailActs(w, c, trouble, now)
    else ConfirmActs(w, trouble.confirmation) +
         if trouble.confirmation.Confirmed? then [] else FailActs(w, c, trouble, now)
  }

  /** The worker after an event: at the next one, or where an error escaped. */
  function AfterEvent(batch: seq<Claim>, trouble: Trouble): Worker
    requires |batch| > 0
  {
    if EndsBatch(trouble) then Busy(batch, Broken) else Busy(batch[1..], Fresh)
  }

  lemma MaybeFailLeads(s: State, t: State, w: WorkerId, batch: seq<Claim>, trouble: Trouble) returns (u: State)
    requires |batch| > 0 && Now(t, s, w, Busy(batch, Broken), t.outbox, t.inbox, t.effects)
    requires Alone(t, w, batch[0].event)
    ensures var c := batch[0];
      && Leads(t, FailActs(w, c, trouble, s.clock), u)
      && Now(u, s, w, if trouble.markFailedThrows then Busy(batch, Broken) else Busy(batch[1..], Fresh),
             if trouble.markFailedThrows then t.outbox
             else SetRowOf(t.outbox, c.event,
                    FailedRow(RowOf(t.outbox, c.event),
                              NextDue(c.attempts, s.maxAttempts, NextAttempt(c.attempts + 1, s.clock, trouble.draw)))),
             t.inbox, t.effects)
  {
    hide NextAttempt;
    if trouble.markFailedThrows {
      u := t;
    } else {
      u := FailLeads(s, t, w, batch, NextAttempt(batch[0].attempts + 1, s.clock, trouble.draw));
    }
  }

  lemma AloneStays(t: State, u: State, s: State, w: WorkerId, x: Worker, y: Worker, e: EventId)
    requires Alone(t, w, e) && t.workers == s.workers[w := x] && u.workers == s.workers[w := y]
    ensures Alone(u, w, e)
  {
    assert forall v :: v in u.workers && v != w ==> v in t.workers && t.workers[v] == u.workers[v];
  }

  /** `processEvent` is a list of the machine's moves of one worker with the head of its batch. */
  lemma ProcessEventIsRun(s: State, t: State, w: WorkerId, batch: seq<Claim>, trouble: Trouble) returns (u: State)
    requires |batch| > 0 && Now(t, s, w, Busy(batch, Fresh), t.outbox, t.inbox, t.effects)
    requires Alone(t, w, batch[0].event) && batch[0].event in t.written
    ensures var c := batch[0]; var e := c.event;
      && Leads(t, EventActs(w, c, trouble, e in t.inbox, s.clock), u)
      && Now(u, s, w, AfterEvent(batch, trouble),
             SetRowOf(t.outbox, e, SettledRow(RowOf(t.outbox, e), c, trouble, s.maxAttempts, s.clock)),
             t.inbox + (if trouble.handler.RolledBack? then {} else {e}),
             t.effects + if trouble.handler.RolledBack? || e in t.inbox then [] else [Effect(e, t.written[e])])
  {
    hide Leads, Alone, NextAttempt, ProcessedRow, FailedRow, NextDue;
    var c := batch[0];
    var consumed := ConsumeLeads(s, t, w, batch, trouble.handler);
    var acts := ConsumeActs(w, trouble.handler, c.event in t.inbox);
    AloneStays(t, consumed, s, w, Busy(batch, Fresh), consumed.workers[w], c.event);
    if !trouble.handler.Committed? {
      u := MaybeFailLeads(s, consumed, w, batch, trouble);
      LeadsOn(t, acts, consumed, FailActs(w, c, trouble, s.clock), u);
    } else {
      var marked := ConfirmLeads(s, consumed, w, batch, trouble.confirmation);
      LeadsOn(t, acts, consumed, ConfirmActs(w, trouble.confirmation), marked);
      AloneStays(consumed, marked, s, w, consumed.workers[w], marked.workers[w], c.event);
      if trouble.confirmation.Confirmed? {
        u := marked;
        assert acts + (ConfirmActs(w, trouble.confirmation) + []) == acts + ConfirmActs(w, trouble.confirmation);
      } else {
        u := MaybeFailLeads(s, marked, w, batch, trouble);
        LeadsOn(t, acts + ConfirmActs(w, trouble.confirmation), marked, FailActs(w, c, trouble, s.clock), u);
        assert acts + ConfirmActs(w, trouble.confirmation) + FailActs(w, c, trouble, s.clock) ==
          acts + (ConfirmActs(w, trouble.confirmation) + FailActs(w, c, trouble, s.clock));
      }
    }
  }

  // ---------------------------------------------------------------- one poll

  /** What the aggregates column says is what the machine remembers of each event. */
  predicate SameAggregates(s: State, claimed: seq<EventId>, aggregates: map<EventId, Aggregate>) {
    forall e :: e in claimed ==> e in s.written && e in aggregates && s.written[e] == aggregates[e]
  }

  /** The poll has got through `done` of its events. */
  ghost predicate At(t: State, s: State, w: WorkerId, x: Worker, claimed: seq<EventId>, done: nat,
                     troubles: EventId -> Trouble, aggregates: map<EventId, Aggregate>)
    requires done <= |claimed| && SameAggregates(s, claimed, aggregates)
  {
    Now(t, s, w, x, PolledRows(s.outbox, claimed, done, troubles, s.maxAttempts, s.clock, s.lease),
        s.inbox + Consumed(claimed, done, troubles),
        s.effects + NewEffects(s.inbox, claimed, done, troubles, aggregates))
  }

  lemma TakeableIsAlone(s: State, t: State, w: WorkerId, x: Worker, claimed: seq<EventId>, e: EventId)
    requires Takeable(s, claimed) && e in claimed && t.workers == s.workers[w := x]
    ensures Alone(t, w, e)
  {
    forall v | v in t.workers && v != w
      ensures s.workers[v].Claiming? ==> e !in s.workers[v].locked
      ensures HasInboxRow(s.workers[v]) ==> s.workers[v].batch[0].event != e
    {
      assert HasInboxRow(s.workers[v]) ==> StandsAt(s, v, InboxClaimed);
    }
  }

  lemma OneMoreEvent(s: State, t: State, w: WorkerId, claimed: seq<EventId>, done: nat, troubles: EventId -> Trouble,
                     aggregates: map<EventId, Aggregate>)
    returns (acts: seq<Action>, u: State)
    requires Distinct(claimed) && done < |claimed| && Takeable(s, claimed) && SameAggregates(s, claimed, aggregates)
    requires At(t, s, w, Busy(Claims(s.outbox, claimed)[done..], Fresh), claimed, done, troubles, aggregates)
    ensures Leads(t, acts, u)
    ensures At(u, s, w, AfterEvent(Claims(s.outbox, claimed)[done..], troubles(claimed[done])), claimed, done + 1,
               troubles, aggregates)
  {
    var e, batch := claimed[done], Claims(s.outbox, claimed)[done..];
    assert e in claimed && e in s.outbox && batch[0] == Claim(e, s.outbox[e].attempts + 1);
    TakeableIsAlone(s, t, w, Busy(batch, Fresh), claimed, e);
    NotYetConsumed(claimed, done, troubles);
    OneMorePolled(s.outbox, claimed, done, troubles, s.maxAttempts, s.clock, s.lease);
    OneMoreConsumed(s.inbox, claimed, done, troubles);
    hide Leads, Alone, Takeable, PolledRows, Consumed, SettledRow, EventActs, EndsBatch;
    u := ProcessEventIsRun(s, t, w, batch, troubles(e));
    acts := EventActs(w, batch[0], troubles(e), e in t.inbox, s.clock);
  }

  lemma {:induction false} EventsLead(s: State, w: WorkerId, claimed: seq<EventId>, done: nat,
                                      troubles: EventId -> Trouble, aggregates: map<EventId, Aggregate>)
    returns (acts: seq<Action>, t: State)
    requires w !in s.workers && Distinct(claimed) && done <= |claimed| <= s.batchSize
    requires Takeable(s, claimed) && SameAggregates(s, claimed, aggregates) && NoneEnded(claimed, done, troubles)
    ensures Leads(s, acts, t)
    ensures At(t, s, w, Busy(Claims(s.outbox, claimed)[done..], Fresh), claimed, done, troubles, aggregates)
    decreases done
  {
    hide Leads, Takeable, PolledRows, Consumed, EndsBatch;
    var batch := Claims(s.outbox, claimed);
    if done == 0 {
      t := ClaimBatchIsRun(s, w, claimed);
      acts := ClaimActs(w, claimed);
      NonePolled(s.outbox, claimed, troubles, s.maxAttempts, s.clock, s.lease);
      assert Claims(s.outbox, claimed)[0..] == Claims(s.outbox, claimed);
      assert s.inbox + {} == s.inbox && s.effects + [] == s.effects;
    } else {
      var first, mid := EventsLead(s, w, claimed, done - 1, troubles, aggregates);
      var more, last := OneMoreEvent(s, mid, w, claimed, done - 1, troubles, aggregates);
      LeadsOn(s, first, mid, more, last);
      assert batch[done - 1..][1..] == batch[done..];
      acts, t := first + more, last;
    }
  }

  /** The worker is done with its poll, or dies in it. */
  lemma PollOver(s: State, t: State, w: WorkerId, x: Worker, acts: seq<Action>)
    requires w !in s.workers && t.workers == s.workers[w := x] && Leads(s, acts, t)
    ensures Leads(s, acts + [Abandon(w)], t.(workers := s.workers))
  {
    LeadsThen(s, acts, t, Abandon(w));
    assert t.workers - {w} == s.workers;
  }

  /**
   * One whole poll, whatever goes wrong with whichever event, is a list of the machine's actions: from
   * any state of the machine in which nobody holds the claimed events, they lead to exactly the rows,
   * the inbox and the effects that the poll leaves, with every other worker where it was.
   */
  lemma PollIsRun(s: State, w: WorkerId, claimed: seq<EventId>, done: nat, claiming: Ending,
                  troubles: EventId -> Trouble, aggregates: map<EventId, Aggregate>)
    returns (acts: seq<Action>, t: State)
    requires w !in s.workers && Distinct(claimed) && |claimed| <= s.batchSize && done <= |claimed|
    requires Takeable(s, claimed) && SameAggregates(s, claimed, aggregates)
    requires claiming.Committed? ==> GotThrough(claimed, done, troubles)
    requires claiming.AnswerLost? ==> done == 0
    requires claiming.RolledBack? ==> claimed == []
    ensures Leads(s, acts, t) && t.workers == s.workers && t.written == s.written && t.clock == s.clock
    ensures t.outbox == PolledRows(s.outbox, claimed, done, troubles, s.maxAttempts, s.clock, s.lease)
    ensures t.inbox == s.inbox + Consumed(claimed, done, troubles)
    ensures t.effects == s.effects + NewEffects(s.inbox, claimed, done, troubles, aggregates)
  {
    hide Leads, Takeable, PolledRows, Consumed, NewEffects, EndsBatch, Claims;
    var last;
    if done == 0 {
      acts, last := EventsLead(s, w, claimed, 0, troubles, aggregates);
    } else {
      var first, mid := EventsLead(s, w, claimed, done - 1, troubles, aggregates);
      var more;
      more, last := OneMoreEvent(s, mid, w, claimed, done - 1, troubles, aggregates);
      LeadsOn(s, first, mid, more, last);
      acts := first + more;
    }
    PollOver(s, last, w, last.workers[w], acts);
    acts, t := acts + [Abandon(w)], last.(workers := s.workers);
  }

  // ---------------------------------------------------------------- the operator and the sweep

  /** The rows of `changed` became what `update` makes of them, the others are what they were. */
  predicate Updated(before: map<EventId, Event>, after: map<EventId, Event>, changed: seq<EventId>,
                    update: Event -> Event)
  {
    && after.Keys == before.Keys
    && forall e :: e in before ==> after[e] == if e in changed then update(before[e]) else before[e]
  }

  function ReplayActs(es: seq<EventId>): seq<Action> {
    if |es| == 0 then [] else ReplayActs(es[..|es| - 1]) + [Action.Replay(es[|es| - 1])]
  }

  lemma ReplayStep(s: State, e: EventId)
    requires e in s.outbox && !EventLocked(s, e)
    ensures Enabled(s, Action.Replay(e))
    ensures var t := Apply(s, Action.Replay(e));
      && t.outbox == s.outbox[e := ReplayedRow(s.outbox[e])] && t.workers == s.workers
      && t.inbox == s.inbox && t.effects == s.effects && t.clock == s.clock
  {
    hide EventLocked;
  }

  lemma OneMoreUpdated(before: map<EventId, Event>, mid: map<EventId, Event>, prefix: seq<EventId>, e: EventId,
                       update: Event -> Event)
    requires Updated(before, mid, prefix, update) && e in before && e !in prefix
    ensures e in mid && Updated(before, mid[e := update(mid[e])], prefix + [e], update)
  {
  }

  lemma SameLocks(s: State, t: State, e: EventId)
    requires t.workers == s.workers
    ensures EventLocked(t, e) == EventLocked(s, e)
  {
  }

  lemma LeadsNowhere(s: State)
    ensures Leads(s, [], s)
  {
  }

  /** Replaying each event of a list, none of them being claimed. */
  lemma {:induction false} ReplaysLead(s: State, es: seq<EventId>) returns (t: State)
    requires Distinct(es) && forall e :: e in es ==> e in s.outbox && !EventLocked(s, e)
    ensures Leads(s, ReplayActs(es), t)
    ensures t.workers == s.workers && t.inbox == s.inbox && t.effects == s.effects && t.clock == s.clock
    ensures Updated(s.outbox, t.outbox, es, ReplayedRow)
  {
    hide Leads, Enabled, Apply, EventLocked, ReplayedRow;
    if |es| == 0 {
      LeadsNowhere(s);
      t := s;
    } else {
      var prefix, last := es[..|es| - 1], es[|es| - 1];
      assert es == prefix + [last] && last in es && last !in prefix;
      var mid := ReplaysLead(s, prefix);
      SameLocks(s, mid, last);
      OneMoreUpdated(s.outbox, mid.outbox, prefix, last, ReplayedRow);
      ReplayStep(mid, last);
      LeadsThen(s, ReplayActs(prefix), mid, Action.Replay(last));
      t := Apply(mid, Action.Replay(last));
    }
  }

  /** `replayAllParked` replays every parked event, one action each. */
  lemma ReplayAllIsRun(s: State) returns (acts: seq<Action>, t: State)
    requires Inv(s)
    ensures Leads(s, acts, t) && |acts| == |ParkedKeys(s.outbox)|
    ensures t.outbox == ReplayRows(s.outbox) && t.inbox == s.inbox && t.effects == s.effects && t.workers == s.workers
  {
    var es := Enumerate(ParkedKeys(s.outbox));
    forall e | e in es ensures !EventLocked(s, e) {}
    hide Leads, Inv, EventLocked;
    t := ReplaysLead(s, es);
    acts := ReplayActs(es);
    ReplayActsCount(es);
    assert t.outbox == ReplayRows(s.outbox);
  }

  lemma {:induction false} ReplayActsCount(es: seq<EventId>)
    ensures |ReplayActs(es)| == |es|
  {
    if |es| > 0 {
      ReplayActsCount(es[..|es| - 1]);
    }
  }

  function PurgeActs(es: seq<EventId>, cutoff: int): seq<Action> {
    if |es| == 0 then [] else PurgeActs(es[..|es| - 1], cutoff) + [PurgeProcessed(es[|es| - 1], cutoff)]
  }

  /** Purging each event of a list removes those of them that are processed and old enough. */
  lemma {:induction false} PurgesLead(s: State, es: seq<EventId>, cutoff: int) returns (t: State)
    ensures Leads(s, PurgeActs(es, cutoff), t) && t == s.(outbox := t.outbox)
    ensures forall e :: e in t.outbox <==>
      e in s.outbox && !(e in es && s.outbox[e].status == Processed && s.outbox[e].processedAt < cutoff)
    ensures forall e :: e in t.outbox ==> t.outbox[e] == s.outbox[e]
  {
    if |es| == 0 {
      t := s;
    } else {
      var prefix, last := es[..|es| - 1], es[|es| - 1];
      assert es == prefix + [last];
      var mid := PurgesLead(s, prefix, cutoff);
      hide Leads;
      LeadsThen(s, PurgeActs(prefix, cutoff), mid, PurgeProcessed(last, cutoff));
      t := Apply(mid, PurgeProcessed(last, cutoff));
    }
  }

  /** The retention sweep is the machine's purge, tried on every event. */
  lemma SweepIsRun(s: State, cutoff: int, after: map<EventId, Event>) returns (acts: seq<Action>)
    requires forall e :: e in after <==>
      e in s.outbox && !(s.outbox[e].status == Processed && s.outbox[e].processedAt < cutoff)
    requires forall e :: e in after ==> after[e] == s.outbox[e]
    ensures Leads(s, acts, s.(outbox := after))
  {
    var es := Enumerate(s.outbox.Keys);
    var t := PurgesLead(s, es, cutoff);
    assert t.outbox == after;
    acts := PurgeActs(es, cutoff);
  }
}
