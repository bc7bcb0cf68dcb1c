/**
 * The whole system: posting transactions next to the delivery side, tied together by the one step
 * both take part in.  Committing a posting inserts its outbox event in the same transaction, so the
 * money, the key's answer and the event appear together or not at all.
 */
module PulseSystem {
  import opened Ledger
  import P = Postings
  import D = Delivery

  datatype State = State(postings: P.State, delivery: D.State)

  datatype Action =
    | Posting(a: P.Action)
    | Delivering(b: D.Action)
    | CommitWithEvent(t: P.TxId, e: D.EventId)
    | Tick(ms: nat)

  predicate Enabled(s: State, step: Action) {
    match step
    case Posting(a) => !a.CommitTx? && !a.Tick? && P.Enabled(s.postings, a)
    case Delivering(b) => !b.Insert? && !b.Tick? && D.Enabled(s.delivery, b)
    case CommitWithEvent(t, e) =>
      P.Enabled(s.postings, P.CommitTx(t)) && D.Enabled(s.delivery, D.Insert(e, s.postings.txs[t].id))
    case Tick(_) => true
  }

  function Apply(s: State, step: Action): State
    requires Enabled(s, step)
  {
    match step
    case Posting(a) => s.(postings := P.Apply(s.postings, a))
    case Delivering(b) => s.(delivery := D.Apply(s.delivery, b))
    case CommitWithEvent(t, e) =>
      State(P.Apply(s.postings, P.CommitTx(t)), D.Apply(s.delivery, D.Insert(e, s.postings.txs[t].id)))
    case Tick(ms) => State(P.Apply(s.postings, P.Tick(ms)), D.Apply(s.delivery, D.Tick(ms)))
  }

  ghost predicate Init(s: State) {
    P.Init(s.postings) && D.Init(s.delivery)
  }

  predicate StepAt(states: seq<State>, steps: seq<Action>, i: nat)
    requires i < |steps| && |states| == |steps| + 1
  {
    Enabled(states[i], steps[i]) && states[i + 1] == Apply(states[i], steps[i])
  }

  /** A run of the whole system. */
  ghost predicate IsRun(states: seq<State>, steps: seq<Action>) {
    && |states| == |steps| + 1
    && Init(states[0])
    && forall i :: 0 <= i < |steps| ==> StepAt(states, steps, i)
  }

  /** Ledger transactions committed since the system started. */
  function CommittedIds(s: State): set<Id> {
    s.postings.book.transactions.Keys - s.postings.initial.transactions.Keys
  }

  /** `written` names every id of `ids` exactly once and nothing else. */
  ghost predicate Paired(written: map<D.EventId, Id>, ids: set<Id>) {
    && (forall e :: e in written ==> written[e] in ids)
    && (forall tx :: tx in ids ==> exists e :: e in written && written[e] == tx)
    && (forall e, f :: e in written && f in written && written[e] == written[f] ==> e == f)
  }

  /** Exactly one event per committed posting, and no event without one. */
  ghost predicate EventPerPosting(s: State) {
    Paired(s.delivery.written, CommittedIds(s))
  }

  lemma PairOneMore(written: map<D.EventId, Id>, ids: set<Id>, e: D.EventId, id: Id)
    requires Paired(written, ids) && e !in written && id !in ids
    ensures Paired(written[e := id], ids + {id})
  {
    var after := written[e := id];
    forall tx | tx in ids + {id}
      ensures exists f :: f in after && after[f] == tx
    {
      if tx == id {
        assert after[e] == tx;
      } else {
        var f :| f in written && written[f] == tx;
        assert after[f] == tx;
      }
    }
  }

  ghost predicate Inv(s: State) {
    P.Inv(s.postings) && D.Inv(s.delivery) && EventPerPosting(s)
  }

  /** Only a commit adds a ledger transaction, and it adds exactly its own id. */
  lemma TransactionsAfter(s: P.State, a: P.Action)
    requires P.Inv(s) && P.Enabled(s, a)
    ensures var s' := P.Apply(s, a);
      && s'.initial == s.initial
      && s'.book.transactions.Keys == s.book.transactions.Keys + (if a.CommitTx? then {s.txs[a.t].id} else {})
      && (a.CommitTx? ==> s.txs[a.t].id !in s.book.transactions)
  {
    if a.CommitTx? {
      assert P.TxOk(s, s.txs[a.t]);
      P.ChangesOf(s, s.txs[a.t]);
    }
  }

  /** Only an insert adds a written event. */
  lemma WrittenAfter(s: D.State, b: D.Action)
    requires D.Enabled(s, b)
    ensures D.Apply(s, b).written == if b.Insert? then s.written[b.e := b.aggregate] else s.written
    ensures b.Insert? ==> b.e !in s.written
  {
  }

  /** The book still holds every transaction it started with. */
  predicate Grown(s: State) {
    s.postings.initial.transactions.Keys <= s.postings.book.transactions.Keys
  }

  /** A new posting with its new event keeps events and postings paired. */
  lemma CommitPairs(s: State, s': State, id: Id, e: D.EventId)
    requires EventPerPosting(s) && Grown(s)
    requires s'.postings.initial == s.postings.initial
    requires s'.postings.book.transactions.Keys == s.postings.book.transactions.Keys + {id}
    requires id !in s.postings.book.transactions
    requires s'.delivery.written == s.delivery.written[e := id] && e !in s.delivery.written
    ensures EventPerPosting(s') && Grown(s')
  {
    hide Paired;
    assert CommittedIds(s') == CommittedIds(s) + {id};
    PairOneMore(s.delivery.written, CommittedIds(s), e, id);
  }

  lemma CommitKeepsInv(s: State, t: P.TxId, e: D.EventId)
    requires Inv(s) && Enabled(s, CommitWithEvent(t, e)) && Grown(s)
    ensures Inv(Apply(s, CommitWithEvent(t, e))) && Grown(Apply(s, CommitWithEvent(t, e)))
    ensures Apply(s, CommitWithEvent(t, e)).postings.initial == s.postings.initial
  {
    assert t in s.postings.txs;
    hide P.Inv, D.Inv, P.Apply, D.Apply, P.Enabled, D.Enabled, EventPerPosting, Grown;
    var s', id := Apply(s, CommitWithEvent(t, e)), s.postings.txs[t].id;
    P.NextKeepsInv(s.postings, P.CommitTx(t));
    D.NextKeepsInv(s.delivery, D.Insert(e, id));
    TransactionsAfter(s.postings, P.CommitTx(t));
    WrittenAfter(s.delivery, D.Insert(e, id));
    CommitPairs(s, s', id, e);
  }

  lemma NextKeepsInv(s: State, step: Action)
    requires Inv(s) && Enabled(s, step) && Grown(s)
    ensures Inv(Apply(s, step)) && Grown(Apply(s, step))
    ensures Apply(s, step).postings.initial == s.postings.initial
  {
    match step
    case Posting(a) =>
      P.NextKeepsInv(s.postings, a);
      TransactionsAfter(s.postings, a);
      hide P.Inv, D.Inv, P.Apply, D.Apply, P.Enabled, D.Enabled;
    case Delivering(b) =>
      D.NextKeepsInv(s.delivery, b);
      WrittenAfter(s.delivery, b);
      hide P.Inv, D.Inv, P.Apply, D.Apply, P.Enabled, D.Enabled;
    case CommitWithEvent(t, e) =>
      CommitKeepsInv(s, t, e);
    case Tick(ms) =>
      P.NextKeepsInv(s.postings, P.Tick(ms));
      D.NextKeepsInv(s.delivery, D.Tick(ms));
      TransactionsAfter(s.postings, P.Tick(ms));
      WrittenAfter(s.delivery, D.Tick(ms));
      hide P.Inv, D.Inv, P.Apply, D.Apply, P.Enabled, D.Enabled;
  }

  lemma {:induction false} Reachable(states: seq<State>, steps: seq<Action>, i: nat)
    requires IsRun(states, steps) && i <= |steps|
    ensures Inv(states[i]) && states[i].postings.initial == states[0].postings.initial
    ensures Grown(states[i])
  {
    if i > 0 {
      Reachable(states, steps, i - 1);
      assert StepAt(states, steps, i - 1);
      NextKeepsInv(states[i - 1], steps[i - 1]);
    }
  }

  /** The audit effects of one ledger transaction. */
  function EffectsOf(effects: seq<D.Effect>, tx: Id): set<int> {
    set i | 0 <= i < |effects| && effects[i].aggregate == tx
  }

  /** The event is waiting for delivery, or its audit effect is recorded. */
  predicate PendingOrApplied(s: D.State, e: D.EventId) {
    e in s.outbox || exists i :: 0 <= i < |s.effects| && s.effects[i].event == e
  }

  /**
   * Over every run of the whole system: each committed posting has exactly one event, pending or
   * applied; every event ever written is a committed posting's, so attempts that did not commit left
   * none; no posting ever has two effects; and every effect belongs to a committed posting.
   */
  lemma ExactlyOneEventAtMostOneEffect(states: seq<State>, steps: seq<Action>, tx: Id)
    requires IsRun(states, steps)
    ensures var s := states[|steps|]; var written := s.delivery.written;
      && (tx in CommittedIds(s) ==>
            exists e :: e in written && written[e] == tx && PendingOrApplied(s.delivery, e))
      && (forall e, f :: e in written && f in written && written[e] == tx == written[f] ==> e == f)
      && (forall e :: e in written ==> written[e] in CommittedIds(s))
      && (forall i, j :: i in EffectsOf(s.delivery.effects, tx) && j in EffectsOf(s.delivery.effects, tx) ==> i == j)
      && (EffectsOf(s.delivery.effects, tx) != {} ==> tx in CommittedIds(s))
  {
    Reachable(states, steps, |steps|);
    var s := states[|steps|];
    hide P.Inv, D.EventsOk, D.MarksOk, D.WorkersOk;
    if tx in CommittedIds(s) {
      var e :| e in s.delivery.written && s.delivery.written[e] == tx;
      assert PendingOrApplied(s.delivery, e);
    }
    forall i, j | i in EffectsOf(s.delivery.effects, tx) && j in EffectsOf(s.delivery.effects, tx)
      ensures i == j
    {
      assert s.delivery.effects[i].event == s.delivery.effects[j].event;
    }
  }
}
