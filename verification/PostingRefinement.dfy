/**
 * The posting transaction as it is run refines the posting machine: one attempt, whatever failure it
 * meets, leaves in the tables what a list of the machine's actions leads to, and so do the statements
 * of a claim.
 */
module PostingRefinement {
  import opened Basics
  import opened Ledger
  import opened Requests
  import opened Idempotency
  import opened Postings
  import DB = LedgerDatabase
  import Keys = IdempotencyStore

  /** A list of actions, each enabled in its turn, and the state they lead to. */
  ghost predicate Leads(s: State, acts: seq<Action>, t: State)
    decreases |acts|
  {
    if acts == [] then s == t
    else
      var prefix, last := acts[..|acts| - 1], acts[|acts| - 1];
      exists mid :: Leads(s, prefix, mid) && Enabled(mid, last) && Apply(mid, last) == t
  }

  lemma LeadsThen(s: State, acts: seq<Action>, t: State, a: Action)
    requires Leads(s, acts, t) && Enabled(t, a)
    ensures Leads(s, acts + [a], Apply(t, a))
  {
    hide Enabled, Apply;
    assert (acts + [a])[..|acts|] == acts;
  }

  // ---------------------------------------------------------------- one attempt

  /** Nobody in flight uses the id, or holds a row of the request's accounts or of its key. */
  predicate Free(s: State, id: Id, req: Request) {
    && (forall u :: u in s.txs ==> s.txs[u].id != id)
    && (forall account :: account in LockOrder(req) ==> !RowLocked(s, account))
    && (req.key.Some? ==> !KeyLocked(s, req.key.value))
  }

  /** The rows an attempt has read after `n` locks. */
  function RowsRead(book: Book, req: Request, n: nat): map<Id, Account>
    requires n <= 2
  {
    map account | account in LockOrder(req)[..n] && account in book.accounts :: book.accounts[account]
  }

  function Attempt(s: State, id: Id, req: Request, n: nat): Tx
    requires n <= 2
  {
    Tx(id, req, RowsRead(s.book, req, n), Locking(n), s.clock)
  }

  lemma RowStaysFree(s: State, t: TxId, x: Tx, account: Id)
    requires !RowLocked(s, account) && t !in s.txs && account !in x.rows
    ensures !RowLocked(s.(txs := s.txs[t := x]), account)
  {
    var mid := s.(txs := s.txs[t := x]);
    forall u | u in mid.txs
      ensures account !in mid.txs[u].rows
    {
      if u != t { assert mid.txs[u] == s.txs[u]; }
    }
  }

  lemma NextRow(s: State, id: Id, req: Request, n: nat)
    requires n < 2 && LockOrder(req)[0] != LockOrder(req)[1]
    ensures LockNext(s.book, Attempt(s, id, req, n)) == Attempt(s, id, req, n + 1)
    ensures LockOrder(req)[n] in LockOrder(req) && LockOrder(req)[n] !in Attempt(s, id, req, n).rows
  {
    assert LockOrder(req)[..n + 1] == LockOrder(req)[..n] + [LockOrder(req)[n]];
  }

  lemma OneLock(s: State, t: TxId, id: Id, req: Request, n: nat)
    requires t !in s.txs && Free(s, id, req) && n < 2 && LockOrder(req)[0] != LockOrder(req)[1]
    ensures var mid := s.(txs := s.txs[t := Attempt(s, id, req, n)]);
      Enabled(mid, Lock(t)) && Apply(mid, Lock(t)) == s.(txs := s.txs[t := Attempt(s, id, req, n + 1)])
  {
    hide LockNext, RowLocked, RowsRead, LockOrder, KeyLocked;
    NextRow(s, id, req, n);
    RowStaysFree(s, t, Attempt(s, id, req, n), LockOrder(req)[n]);
  }

  lemma BeginStep(s: State, t: TxId, id: Id, req: Request)
    requires t !in s.txs && Free(s, id, req) && WellFormed(req)
    requires req.Funding? ==> CheckFunding(s.book.accounts, req).None?
    ensures Enabled(s, Begin(t, id, req))
    ensures Apply(s, Begin(t, id, req)) == s.(txs := s.txs[t := Attempt(s, id, req, 0)])
  {
    hide CheckFunding, WellFormed, LockOrder, RowLocked, KeyLocked;
  }

  lemma LeadsNothing(s: State)
    ensures Leads(s, [], s)
  {
    hide Enabled, Apply;
  }

  /** A request locks two different rows. */
  lemma TwoRows(accounts: map<Id, Account>, req: Request)
    requires WellFormed(req) && (req.Funding? ==> CheckFunding(accounts, req).None?)
    ensures LockOrder(req)[0] != LockOrder(req)[1]
  {
  }

  lemma LocksLead(s: State, t: TxId, id: Id, req: Request)
    requires t !in s.txs && Free(s, id, req) && WellFormed(req)
    requires req.Funding? ==> CheckFunding(s.book.accounts, req).None?
    ensures Leads(s, [Begin(t, id, req), Lock(t), Lock(t)], s.(txs := s.txs[t := Attempt(s, id, req, 2)]))
  {
    hide Free, Attempt, CheckFunding, WellFormed, LockOrder, Leads, Enabled, Apply;
    TwoRows(s.book.accounts, req);
    BeginStep(s, t, id, req);
    OneLock(s, t, id, req, 0);
    OneLock(s, t, id, req, 1);
    LeadsNothing(s);
    LeadsThen(s, [], s, Begin(t, id, req));
    LeadsThen(s, [] + [Begin(t, id, req)], s.(txs := s.txs[t := Attempt(s, id, req, 0)]), Lock(t));
    LeadsThen(s, [] + [Begin(t, id, req)] + [Lock(t)], s.(txs := s.txs[t := Attempt(s, id, req, 1)]), Lock(t));
    assert [] + [Begin(t, id, req)] + [Lock(t)] + [Lock(t)] == [Begin(t, id, req), Lock(t), Lock(t)];
  }

  /** What the whole transaction leaves, installed at once. */
  function AfterCommit(s: State, id: Id, req: Request, after: DB.Tables): State {
    s.(book := after.book, keys := after.keys, history := s.history + [Commit(id, req)])
  }

  lemma BodyOfAttempt(s: State, id: Id, req: Request)
    requires RunBody(s.book, id, req).Ok?
    ensures var x := Attempt(s, id, req, 2);
      && AllLocked(x) && x.id == id && x.req == req && x.startedAt == s.clock
      && Outcome(s, x).Ok? && Install(s.book, Outcome(s, x).value) == RunBody(s.book, id, req).value
  {
    var x := Attempt(s, id, req, 2);
    assert LockOrder(req)[..2] == LockOrder(req);
    hide RunBody, Install;
    BodyLocal(s.book, x.rows, id, req);
  }

  lemma KeyStaysFree(s: State, t: TxId, x: Tx, k: Key)
    requires !KeyLocked(s, k) && t !in s.txs && !x.phase.KeyTaken?
    ensures !KeyLocked(s.(txs := s.txs[t := x]), k)
  {
    var mid := s.(txs := s.txs[t := x]);
    forall u | u in mid.txs
      ensures !HoldsKey(mid.txs[u], k)
    {
      if u != t { assert mid.txs[u] == s.txs[u]; }
    }
  }

  /** The attempt at each of its last stages. */
  function Staged(s: State, t: TxId, id: Id, req: Request, phase: Phase): State {
    s.(txs := s.txs[t := Attempt(s, id, req, 2).(phase := phase)])
  }

  lemma OutcomeStays(s: State, t: TxId, x: Tx)
    ensures Outcome(s.(txs := s.txs[t := x]), x) == Outcome(s, x)
  {
    hide RunBody;
  }

  lemma PostStep(s: State, t: TxId, id: Id, req: Request)
    requires RunBody(s.book, id, req).Ok?
    ensures Outcome(s, Attempt(s, id, req, 2)).Ok?
    ensures var locked := s.(txs := s.txs[t := Attempt(s, id, req, 2)]);
      && Enabled(locked, Post(t))
      && Apply(locked, Post(t)) == Staged(s, t, id, req, Written(Outcome(s, Attempt(s, id, req, 2)).value))
  {
    hide RunBody, Install, LockOrder, Outcome, AllLocked, Attempt;
    BodyOfAttempt(s, id, req);
    OutcomeStays(s, t, Attempt(s, id, req, 2));
  }

  lemma KeyStep(s: State, t: TxId, id: Id, req: Request, changes: Book)
    requires t !in s.txs && Free(s, id, req) && req.key.Some? && Unfinished(s.keys, req.key.value)
    ensures var posted := Staged(s, t, id, req, Written(changes));
      && Enabled(posted, TakeKey(t))
      && Apply(posted, TakeKey(t)) == Staged(s, t, id, req, KeyTaken(changes))
  {
    KeyStaysFree(s, t, Attempt(s, id, req, 2).(phase := Written(changes)), req.key.value);
    hide LockOrder;
  }

  lemma CommitStep(s: State, t: TxId, id: Id, req: Request, changes: Book, events: seq<Id>)
    requires t !in s.txs && RunBody(s.book, id, req) == Ok(Install(s.book, changes))
    requires DB.CommitRequest(DB.Tables(s.book, s.keys, events), id, req, s.clock).Ok?
    ensures var after := DB.CommitRequest(DB.Tables(s.book, s.keys, events), id, req, s.clock).value;
      var ready := Staged(s, t, id, req, if req.key.Some? then KeyTaken(changes) else Written(changes));
      Enabled(ready, CommitTx(t)) && Apply(ready, CommitTx(t)) == AfterCommit(s, id, req, after)
  {
    hide RunBody, Install, LockOrder;
    var ready := Staged(s, t, id, req, if req.key.Some? then KeyTaken(changes) else Written(changes));
    assert ready.txs - {t} == s.txs;
  }

  /** A sound transaction that takes effect is begin, lock, lock, post, take the key and commit. */
  lemma CommitIsRun(s: State, t: TxId, id: Id, req: Request, events: seq<Id>) returns (acts: seq<Action>)
    requires t !in s.txs && Free(s, id, req) && WellFormed(req)
    requires req.Funding? ==> CheckFunding(s.book.accounts, req).None?
    requires DB.CommitRequest(DB.Tables(s.book, s.keys, events), id, req, s.clock).Ok?
    ensures Leads(s, acts, AfterCommit(s, id, req,
      DB.CommitRequest(DB.Tables(s.book, s.keys, events), id, req, s.clock).value))
  {
    hide Leads, RunBody, Install, Attempt, LockOrder, CheckFunding, WellFormed, Enabled, Apply;
    hide Staged, Free, AfterCommit;
    LocksLead(s, t, id, req);
    PostStep(s, t, id, req);
    BodyOfAttempt(s, id, req);
    var locked, changes := s.(txs := s.txs[t := Attempt(s, id, req, 2)]), Outcome(s, Attempt(s, id, req, 2)).value;
    var ready := Staged(s, t, id, req, Written(changes));
    acts := [Begin(t, id, req), Lock(t), Lock(t)];
    LeadsThen(s, acts, locked, Post(t));
    acts := acts + [Post(t)];
    if req.key.Some? {
      KeyStep(s, t, id, req, changes);
      LeadsThen(s, acts, ready, TakeKey(t));
      acts, ready := acts + [TakeKey(t)], Staged(s, t, id, req, KeyTaken(changes));
    }
    CommitStep(s, t, id, req, changes, events);
    LeadsThen(s, acts, ready, CommitTx(t));
    acts := acts + [CommitTx(t)];
  }

  /**
   * One attempt of a request, whatever failure hits it and wherever, is a list of the machine's
   * actions: they lead to exactly the book and the keys that the attempt leaves, with every other
   * attempt where it was.
   */
  lemma AttemptIsRun(s: State, t: TxId, id: Id, req: Request, events: seq<Id>, fault: DB.Fault)
    returns (acts: seq<Action>, end: State)
    requires t !in s.txs && Free(s, id, req) && WellFormed(req)
    requires req.Funding? ==> CheckFunding(s.book.accounts, req).None?
    ensures Leads(s, acts, end)
    ensures var before := DB.Tables(s.book, s.keys, events);
      var after := DB.Left(before, id, req, s.clock, fault);
      && end.book == after.book && end.keys == after.keys && end.txs == s.txs && end.clock == s.clock
      && end.history == s.history + if DB.Applied(before, id, req, s.clock, fault) then [Commit(id, req)] else []
  {
    hide DB.CommitRequest, Enabled, Apply, LockOrder, Free, WellFormed, CheckFunding;
    var before := DB.Tables(s.book, s.keys, events);
    if DB.Applied(before, id, req, s.clock, fault) {
      acts := CommitIsRun(s, t, id, req, events);
      end := AfterCommit(s, id, req, DB.CommitRequest(before, id, req, s.clock).value);
    } else {
      acts, end := [], s;
      assert s.history + [] == s.history;
    }
  }

  // ---------------------------------------------------------------- the statements of a claim

  function RunActs(stmts: seq<Statement>): seq<Action> {
    if |stmts| == 0 then [] else RunActs(stmts[..|stmts| - 1]) + [Run(stmts[|stmts| - 1])]
  }

  /**
   * Claims and purges, and other statements on keys no posting transaction has taken, with settlements
   * and thresholds as the code makes them.
   */
  predicate Runnable(s: State, stmts: seq<Statement>) {
    forall stmt :: stmt in stmts ==>
      && (stmt.InsertClaim? || stmt.Purge? || !KeyLocked(s, stmt.key))
      && (stmt.Reclaim? ==> stmt.threshold <= s.clock - s.staleTimeout)
      && (stmt.Settle? ==> ReplayableFailure(stmt.response))
  }

  /** Statements run one after another at one moment are that many actions of the machine. */
  lemma {:induction false} StatementsAreRun(s: State, stmts: seq<Statement>) returns (end: State)
    requires Runnable(s, stmts)
    ensures Leads(s, RunActs(stmts), end)
    ensures end.keys == Keys.RunAll(s.keys, stmts, s.clock)
    ensures end == s.(keys := end.keys, logs := end.logs)
  {
    if |stmts| == 0 {
      end := s;
    } else {
      var prefix, last := stmts[..|stmts| - 1], stmts[|stmts| - 1];
      assert last in stmts;
      var mid := StatementsAreRun(s, prefix);
      assert KeyLocked(mid, last.key) == KeyLocked(s, last.key);
      hide Leads, Execute, EventOf;
      LeadsThen(s, RunActs(prefix), mid, Run(last));
      end := Apply(mid, Run(last));
    }
  }

  /** The retention sweep of the keys is a list of the machine's purges. */
  lemma SweepIsRun(s: State, after: Table, cutoff: int) returns (acts: seq<Action>, end: State)
    requires Keys.IsSweep(s.keys, after, cutoff, s.clock)
    ensures Leads(s, acts, end) && end == s.(keys := after, logs := end.logs)
  {
    var stmts :| Keys.OnlyPurges(stmts, cutoff) && Keys.RunAll(s.keys, stmts, s.clock) == after;
    end := StatementsAreRun(s, stmts);
    acts := RunActs(stmts);
  }
}
