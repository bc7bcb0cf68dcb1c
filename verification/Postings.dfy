/**
 * Any number of transfers and fundings in flight at once, next to every statement of the
 * idempotency protocol.
 *
 * A posting transaction locks its account rows in ascending id order, runs its body on the rows it
 * read under lock, takes its key's row last, and then commits everything it wrote at once or
 * vanishes.  Statements outside a posting transaction are atomic and wait for row locks.  `Abort`
 * may hit a transaction at any point: a serialization failure, a deadlock report, a lost
 * connection or a crash.
 */
module Postings {
  import opened Basics
  import opened Ledger
  import opened Requests
  import opened Idempotency

  type TxId = nat

  datatype Phase =
    | Locking(next: nat)
    | Written(changes: Book)
    | KeyTaken(changes: Book)

  /** One attempt: `rows` are the account rows it locked, as it read them. */
  datatype Tx = Tx(id: Id, req: Request, rows: map<Id, Account>, phase: Phase, startedAt: int)

  /** Committed tables, attempts in flight, and two records of the past the theorems speak about. */
  datatype State = State(
    initial: Book,
    staleTimeout: nat,
    book: Book,
    keys: Table,
    txs: map<TxId, Tx>,
    clock: int,
    history: seq<Op>,
    logs: map<Key, KeyLog>)

  datatype Action =
    | Open(account: Id, currency: Currency, owner: Principal)
    | ChangeStatus(account: Id, status: Status)
    | Begin(t: TxId, id: Id, req: Request)
    | Lock(t: TxId)
    | Post(t: TxId)
    | TakeKey(t: TxId)
    | CommitTx(t: TxId)
    | Reject(t: TxId)
    | Abort(t: TxId)
    | Run(stmt: Statement)
    | Tick(ms: nat)

  function LogOf(s: State, k: Key): KeyLog {
    if k in s.logs then s.logs[k] else []
  }

  predicate RowLocked(s: State, id: Id) {
    exists t :: t in s.txs && id in s.txs[t].rows
  }

  predicate HoldsKey(x: Tx, k: Key) {
    x.phase.KeyTaken? && x.req.key == Some(k)
  }

  predicate KeyLocked(s: State, k: Key) {
    exists t :: t in s.txs && HoldsKey(s.txs[t], k)
  }

  function Outcome(s: State, x: Tx): Result<Book, RequestError> {
    RunBody(View(s.book, x.rows, x.id), x.id, x.req)
  }

  predicate AllLocked(x: Tx) {
    x.phase.Locking? && x.phase.next == |LockOrder(x.req)|
  }

  // ---------------------------------------------------------------- steps

  predicate Enabled(s: State, a: Action) {
    match a
    case Open(id, _, _) => id !in s.book.accounts
    case ChangeStatus(id, _) => id in s.book.accounts && !RowLocked(s, id)
    case Begin(t, id, req) =>
      && t !in s.txs && WellFormed(req) && (forall u :: u in s.txs ==> s.txs[u].id != id)
      && (req.Funding? ==> CheckFunding(s.book.accounts, req).None?)
    case Lock(t) =>
      && t in s.txs && s.txs[t].phase.Locking?
      && var x := s.txs[t];
      && x.phase.next < |LockOrder(x.req)|
      && !RowLocked(s, LockOrder(x.req)[x.phase.next])
    case Post(t) => t in s.txs && AllLocked(s.txs[t]) && Outcome(s, s.txs[t]).Ok?
    case TakeKey(t) =>
      && t in s.txs && s.txs[t].phase.Written? && s.txs[t].req.key.Some?
      && !KeyLocked(s, s.txs[t].req.key.value) && Unfinished(s.keys, s.txs[t].req.key.value)
    case CommitTx(t) => t in s.txs && ReadyToCommit(s.txs[t])
    case Reject(t) =>
      && t in s.txs
      && var x := s.txs[t];
      && ((AllLocked(x) && Outcome(s, x).Err?)
          || (&& x.phase.Written? && x.req.key.Some?
              && !KeyLocked(s, x.req.key.value) && !Unfinished(s.keys, x.req.key.value)))
    case Abort(t) => t in s.txs
    case Run(stmt) =>
      && (stmt.InsertClaim? || stmt.Purge? || !KeyLocked(s, stmt.key))
      && (stmt.Reclaim? ==> stmt.threshold <= s.clock - s.staleTimeout)
      && (stmt.Settle? ==> ReplayableFailure(stmt.response))
    case Tick(_) => true
  }

  predicate ReadyToCommit(x: Tx) {
    if x.req.key.None? then x.phase.Written? else x.phase.KeyTaken?
  }

  function Apply(s: State, a: Action): State
    requires Enabled(s, a)
  {
    match a
    case Open(id, currency, owner) => Serve(s, CreateAccount(id, currency, owner))
    case ChangeStatus(id, status) => Serve(s, SetStatus(id, status))
    case Begin(t, id, req) => s.(txs := s.txs[t := Tx(id, req, map[], Locking(0), s.clock)])
    case Lock(t) => s.(txs := s.txs[t := LockNext(s.book, s.txs[t])])
    case Post(t) => s.(txs := s.txs[t := s.txs[t].(phase := Written(Outcome(s, s.txs[t]).value))])
    case TakeKey(t) => s.(txs := s.txs[t := s.txs[t].(phase := KeyTaken(s.txs[t].phase.changes))])
    case CommitTx(t) =>
      var x := s.txs[t];
      s.(txs := s.txs - {t},
         book := Install(s.book, x.phase.changes),
         keys := if x.req.key.None? then s.keys
                 else CompleteRow(s.keys, x.req.key.value, PostedResponse(x.id), x.startedAt),
         history := s.history + [Commit(x.id, x.req)])
    case Reject(t) => s.(txs := s.txs - {t})
    case Abort(t) => s.(txs := s.txs - {t})
    case Run(stmt) =>
      s.(keys := Execute(s.keys, stmt, s.clock),
         logs := s.logs[stmt.key := LogOf(s, stmt.key) + EventOf(s.keys, stmt, s.clock)])
    case Tick(ms) => s.(clock := s.clock + ms)
  }

  /** A single-statement operation on the accounts table. */
  function Serve(s: State, op: Op): State
    requires ExecuteAlone(s.book, op).Some?
  {
    s.(book := ExecuteAlone(s.book, op).value, history := s.history + [op])
  }

  /** SELECT ... FOR UPDATE takes the next existing row; a missing row is not returned. */
  function LockNext(book: Book, x: Tx): Tx
    requires x.phase.Locking? && x.phase.next < |LockOrder(x.req)|
  {
    var id := LockOrder(x.req)[x.phase.next];
    x.(phase := Locking(x.phase.next + 1),
       rows := if id in book.accounts then x.rows[id := book.accounts[id]] else x.rows)
  }

  /** Freshly migrated: some consistent book, no keys, nothing in flight. */
  ghost predicate Init(s: State) {
    BookInv(s.initial) && s.book == s.initial && s.keys == map[] && s.txs == map[] && s.history == [] && s.logs == map[]
  }

  predicate StepAt(states: seq<State>, actions: seq<Action>, i: nat)
    requires i < |actions| && |states| == |actions| + 1
  {
    Enabled(states[i], actions[i]) && states[i + 1] == Apply(states[i], actions[i])
  }

  /** A run: the states passed through, from a fresh system on, and the step between each two. */
  ghost predicate IsRun(states: seq<State>, actions: seq<Action>) {
    && |states| == |actions| + 1
    && Init(states[0])
    && forall i :: 0 <= i < |actions| ==> StepAt(states, actions, i)
  }

  // ---------------------------------------------------------------- the invariant

  /** What a funding read outside its transaction can no longer change. */
  predicate FundingFacts(accounts: map<Id, Account>, req: Request)
    requires req.Funding?
  {
    req.account in accounts && !accounts[req.account].isTreasury && TreasuryOf(accounts, req.account, req.treasury)
  }

  predicate TxOk(s: State, x: Tx) {
    && WellFormed(x.req)
    && (x.req.Funding? ==> FundingFacts(s.book.accounts, x.req))
    && (forall id :: id in x.rows ==> id in s.book.accounts && s.book.accounts[id] == x.rows[id])
    && match x.phase
       case Locking(n) => n <= |LockOrder(x.req)| && forall id :: id in x.rows ==> id in LockOrder(x.req)[..n]
       case Written(changes) => Outcome(s, x) == Ok(changes) && forall id :: id in x.rows ==> id in LockOrder(x.req)
       case KeyTaken(changes) =>
         && Outcome(s, x) == Ok(changes) && x.req.key.Some? && Unfinished(s.keys, x.req.key.value)
         && forall id :: id in x.rows ==> id in LockOrder(x.req)
  }

  predicate Exclusive(x: Tx, y: Tx) {
    && x.id != y.id
    && (forall id :: id in x.rows ==> id !in y.rows)
    && (x.phase.KeyTaken? && y.phase.KeyTaken? ==> x.req.key != y.req.key)
  }

  predicate TxInv(s: State) {
    && (forall t :: t in s.txs ==> TxOk(s, s.txs[t]))
    && (forall t, u :: t in s.txs && u in s.txs && t != u ==> Exclusive(s.txs[t], s.txs[u]))
  }

  /** Number of committed postings made under key `k`. */
  function KeyPostings(history: seq<Op>, k: Key): nat {
    if |history| == 0 then 0
    else
      var op := history[|history| - 1];
      KeyPostings(history[..|history| - 1], k) + if op.Commit? && op.req.key == Some(k) then 1 else 0
  }

  /** The latest committed posting made under key `k`. */
  function LastPosting(history: seq<Op>, k: Key): Option<Id> {
    if |history| == 0 then None
    else
      var op := history[|history| - 1];
      if op.Commit? && op.req.key == Some(k) then Some(op.id) else LastPosting(history[..|history| - 1], k)
  }

  predicate KeyOk(s: State, k: Key) {
    && KeyPostings(s.history, k) == PostingPurges(LogOf(s, k)) + (if AnswersPosting(s.keys, k) then 1 else 0)
    && (AnswersPosting(s.keys, k) ==>
          && LastPosting(s.history, k).Some?
          && s.keys[k].progress.response == PostedResponse(LastPosting(s.history, k).value))
    && Spaced(LogOf(s, k), s.staleTimeout)
    && LogMatchesRow(s.keys, k, LogOf(s, k))
  }

  ghost predicate Inv(s: State) {
    && BookInv(s.book)
    && ExecuteSerially(s.initial, s.history) == Some(s.book)
    && TxInv(s)
    && forall k :: KeyOk(s, k)
  }

  // ---------------------------------------------------------------- account identity

  /** Currency, treasury flag and owner of every account are what they were. */
  predicate IdentityKept(a: map<Id, Account>, b: map<Id, Account>) {
    forall id :: id in a ==>
      id in b && b[id].currency == a[id].currency && b[id].isTreasury == a[id].isTreasury && b[id].owner == a[id].owner
  }

  lemma BodyKeepsIdentity(book: Book, id: Id, req: Request)
    requires RunBody(book, id, req).Ok?
    ensures var after := RunBody(book, id, req).value;
      after.accounts.Keys == book.accounts.Keys && IdentityKept(book.accounts, after.accounts)
      && after.transactions.Keys == book.transactions.Keys + {id} && id !in book.transactions
      && AccountsAvailable(book.accounts, PostingOf(id, req))
  {
    var p := PostingOf(id, req);
    FoldEntriesAt(book.accounts, Unnest(p, book.accounts[p.accountIds[0]].currency));
  }

  // ---------------------------------------------------------------- commit

  /** An attempt that got as far as writing holds the current version of every row it needs, all of them active. */
  lemma RowsAreCurrent(s: State, x: Tx)
    requires TxOk(s, x) && !x.phase.Locking?
    ensures RowsCurrent(s.book, x.rows, x.req)
    ensures x.req.Funding? ==> CheckFunding(s.book.accounts, x.req).None?
  {
    BodyKeepsIdentity(View(s.book, x.rows, x.id), x.id, x.req);
    hide RunBody;
    var p := PostingOf(x.id, x.req);
    assert p.accountIds[0] in p.accountIds && p.accountIds[1] in p.accountIds;
  }

  /** Committing what was written under lock is executing the whole request alone, now. */
  lemma CommitIsSerial(s: State, t: TxId)
    requires TxInv(s) && Enabled(s, CommitTx(t))
    ensures ExecuteAlone(s.book, Commit(s.txs[t].id, s.txs[t].req)) == Some(Install(s.book, s.txs[t].phase.changes))
  {
    hide RunBody, RowsCurrent, CheckFunding;
    var x := s.txs[t];
    assert TxOk(s, x);
    RowsAreCurrent(s, x);
    BodyLocal(s.book, x.rows, x.id, x.req);
  }

  /** An attempt stays sound when its rows, its id and its key's row are left alone. */
  lemma TxFrame(s: State, s': State, y: Tx)
    requires TxOk(s, y) && IdentityKept(s.book.accounts, s'.book.accounts)
    requires forall id :: id in y.rows ==> s'.book.accounts[id] == s.book.accounts[id]
    requires y.id in s.book.transactions <==> y.id in s'.book.transactions
    requires y.id in s.book.transactions ==> s'.book.transactions[y.id] == s.book.transactions[y.id]
    requires y.phase.KeyTaken? ==> Unfinished(s'.keys, y.req.key.value)
    ensures TxOk(s', y)
  {
    assert View(s'.book, y.rows, y.id) == View(s.book, y.rows, y.id);
    assert Outcome(s', y) == Outcome(s, y);
  }

  /** What a ready attempt writes: its locked rows with their identity kept, and its own new id. */
  lemma ChangesOf(s: State, x: Tx)
    requires TxOk(s, x) && ReadyToCommit(x)
    ensures var changes := x.phase.changes;
      && changes.accounts.Keys == x.rows.Keys && IdentityKept(x.rows, changes.accounts)
      && changes.transactions.Keys == {x.id} && x.id !in s.book.transactions
  {
    BodyKeepsIdentity(View(s.book, x.rows, x.id), x.id, x.req);
  }

  lemma InstallFrame(book: Book, changes: Book, rows: map<Id, Account>)
    requires forall id :: id in rows ==> id in book.accounts && book.accounts[id] == rows[id]
    requires changes.accounts.Keys == rows.Keys && IdentityKept(rows, changes.accounts)
    ensures IdentityKept(book.accounts, Install(book, changes).accounts)
    ensures forall id :: id in book.accounts && id !in rows ==> Install(book, changes).accounts[id] == book.accounts[id]
  {
  }

  lemma CommitKeepsOther(s: State, t: TxId, u: TxId)
    requires TxInv(s) && Enabled(s, CommitTx(t)) && u in s.txs && u != t
    ensures TxOk(Apply(s, CommitTx(t)), s.txs[u])
  {
    hide RunBody;
    var s', x, y := Apply(s, CommitTx(t)), s.txs[t], s.txs[u];
    assert TxOk(s, x) && TxOk(s, y) && Exclusive(x, y);
    ChangesOf(s, x);
    InstallFrame(s.book, x.phase.changes, x.rows);
    assert y.phase.KeyTaken? ==> Unfinished(s'.keys, y.req.key.value);
    assert s'.book.transactions.Keys == s.book.transactions.Keys + {x.id};
    TxFrame(s, s', y);
  }

  lemma TakenKeyUnfinished(s: State, t: TxId)
    requires TxInv(s) && Enabled(s, CommitTx(t))
    ensures s.txs[t].req.key.Some? ==> Unfinished(s.keys, s.txs[t].req.key.value)
  {
    hide RunBody, Outcome;
    assert TxOk(s, s.txs[t]);
  }

  lemma CommitKeepsKeys(s: State, t: TxId, k: Key)
    requires TxInv(s) && Enabled(s, CommitTx(t)) && KeyOk(s, k)
    ensures KeyOk(Apply(s, CommitTx(t)), k)
  {
    hide TxInv, Install, Spaced, KeyPostings, LastPosting, PostingPurges;
    TakenKeyUnfinished(s, t);
    HistoryStep(s.history, Commit(s.txs[t].id, s.txs[t].req), k);
    assert LogOf(Apply(s, CommitTx(t)), k) == LogOf(s, k);
  }

  lemma HistoryStep(history: seq<Op>, op: Op, k: Key)
    ensures KeyPostings(history + [op], k) ==
      KeyPostings(history, k) + if op.Commit? && op.req.key == Some(k) then 1 else 0
    ensures LastPosting(history + [op], k) ==
      if op.Commit? && op.req.key == Some(k) then Some(op.id) else LastPosting(history, k)
  {
    assert (history + [op])[..|history|] == history;
  }

  lemma CommitKeepsInv(s: State, t: TxId)
    requires Inv(s) && Enabled(s, CommitTx(t))
    ensures Inv(Apply(s, CommitTx(t)))
  {
    var s', x := Apply(s, CommitTx(t)), s.txs[t];
    CommitIsSerial(s, t);
    OperationKeepsBook(s.book, Commit(x.id, x.req));
    assert s'.history[..|s'.history| - 1] == s.history;
    forall u | u in s'.txs ensures TxOk(s', s'.txs[u]) { CommitKeepsOther(s, t, u); }
    forall k ensures KeyOk(s', k) { CommitKeepsKeys(s, t, k); }
  }

  // ---------------------------------------------------------------- the other steps

  lemma AccountStatementFrame(book: Book, op: Op)
    requires !op.Commit? && ExecuteAlone(book, op).Some?
    ensures var after := ExecuteAlone(book, op).value;
      && IdentityKept(book.accounts, after.accounts) && after.transactions == book.transactions
      && forall id :: id in book.accounts && (op.SetStatus? ==> id != op.id) ==> after.accounts[id] == book.accounts[id]
  {
  }

  /** Account statements touch no locked row and no key. */
  lemma ServeKeepsInv(s: State, op: Op)
    requires Inv(s) && !op.Commit? && ExecuteAlone(s.book, op).Some?
    requires op.SetStatus? ==> !RowLocked(s, op.id)
    ensures Inv(Serve(s, op))
  {
    var s' := Serve(s, op);
    OperationKeepsBook(s.book, op);
    AccountStatementFrame(s.book, op);
    assert s'.history[..|s'.history| - 1] == s.history;
    forall u | u in s'.txs ensures TxOk(s', s'.txs[u]) { ServeKeepsTx(s, op, u); }
    forall k
      ensures KeyOk(s', k)
    {
      assert KeyOk(s, k);
      HistoryStep(s.history, op, k);
    }
  }

  lemma ServeKeepsTx(s: State, op: Op, u: TxId)
    requires TxInv(s) && !op.Commit? && ExecuteAlone(s.book, op).Some? && u in s.txs
    requires op.SetStatus? ==> !RowLocked(s, op.id)
    ensures TxOk(Serve(s, op), s.txs[u])
  {
    AccountStatementFrame(s.book, op);
    assert TxOk(s, s.txs[u]);
    TxFrame(s, Serve(s, op), s.txs[u]);
  }

  /** Replacing one attempt's own record keeps the invariant when the new record is sound. */
  lemma StepKeepsInv(s: State, t: TxId, x: Tx)
    requires Inv(s)
    requires TxOk(s, x) && forall u :: u in s.txs && u != t ==> Exclusive(x, s.txs[u]) && Exclusive(s.txs[u], x)
    ensures Inv(s.(txs := s.txs[t := x]))
  {
    hide RunBody;
    var s' := s.(txs := s.txs[t := x]);
    forall u | u in s'.txs
      ensures TxOk(s', s'.txs[u])
    {
      assert u != t ==> TxOk(s, s.txs[u]);
    }
    forall u, v | u in s'.txs && v in s'.txs && u != v
      ensures Exclusive(s'.txs[u], s'.txs[v])
    {
      assert u != t && v != t ==> Exclusive(s.txs[u], s.txs[v]);
    }
    forall k ensures KeyOk(s', k) { assert KeyOk(s, k); }
  }

  lemma LockKeepsInv(s: State, t: TxId)
    requires Inv(s) && Enabled(s, Lock(t))
    ensures Inv(Apply(s, Lock(t)))
  {
    hide RunBody, Outcome, BookInv, KeyOk, FundingFacts, ExecuteSerially;
    var x := s.txs[t];
    assert TxOk(s, x);
    var n, order, y := x.phase.next, LockOrder(x.req), LockNext(s.book, x);
    assert order[..n + 1] == order[..n] + [order[n]];
    forall u | u in s.txs && u != t
      ensures Exclusive(y, s.txs[u]) && Exclusive(s.txs[u], y)
    {
      assert Exclusive(x, s.txs[u]) && Exclusive(s.txs[u], x);
    }
    StepKeepsInv(s, t, y);
  }

  lemma DropKeepsInv(s: State, t: TxId)
    requires Inv(s)
    ensures Inv(s.(txs := s.txs - {t}))
  {
    hide RunBody;
    var s' := s.(txs := s.txs - {t});
    forall u | u in s'.txs ensures TxOk(s', s'.txs[u]) { assert TxOk(s, s.txs[u]); }
    forall k ensures KeyOk(s', k) { assert KeyOk(s, k); }
  }

  lemma RunKeepsKey(s: State, stmt: Statement)
    requires KeyOk(s, stmt.key) && Enabled(s, Run(stmt))
    ensures KeyOk(Apply(s, Run(stmt)), stmt.key)
  {
    var s' := Apply(s, Run(stmt));
    StatementKeepsSpacing(s.keys, stmt, s.clock, s.staleTimeout, LogOf(s, stmt.key));
    PurgesStep(LogOf(s, stmt.key), EventOf(s.keys, stmt, s.clock));
    StatementAnswers(s.keys, stmt, s.clock);
    assert LogOf(s', stmt.key) == LogOf(s, stmt.key) + EventOf(s.keys, stmt, s.clock);
  }

  /** A row starts answering with a posting through no statement, and stops only through a purge. */
  lemma StatementAnswers(table: Table, stmt: Statement, now: int)
    requires stmt.Settle? ==> ReplayableFailure(stmt.response)
    ensures var after, purged := Execute(table, stmt, now), EventOf(table, stmt, now) == [Purged(true)];
      && (AnswersPosting(after, stmt.key) <==> AnswersPosting(table, stmt.key) && !purged)
      && (purged ==> AnswersPosting(table, stmt.key))
      && (AnswersPosting(after, stmt.key) ==> after[stmt.key] == table[stmt.key])
      && |EventOf(table, stmt, now)| <= 1
  {
  }

  lemma PurgesStep(log: KeyLog, event: KeyLog)
    requires |event| <= 1
    ensures PostingPurges(log + event) == PostingPurges(log) + if event == [Purged(true)] then 1 else 0
  {
    if event == [] { assert log + event == log; } else { assert (log + event)[..|log|] == log; }
  }

  lemma RunKeepsInv(s: State, stmt: Statement)
    requires Inv(s) && Enabled(s, Run(stmt))
    ensures Inv(Apply(s, Run(stmt)))
  {
    hide RunBody;
    var s' := Apply(s, Run(stmt));
    forall k
      ensures KeyOk(s', k)
    {
      assert KeyOk(s, k);
      if k == stmt.key { RunKeepsKey(s, stmt); }
    }
    forall u | u in s'.txs
      ensures TxOk(s', s'.txs[u])
    {
      var y := s.txs[u];
      assert TxOk(s, y);
      assert y.phase.KeyTaken? ==> HoldsKey(y, y.req.key.value);
      TxFrame(s, s', y);
    }
  }

  lemma TickKeepsInv(s: State, ms: nat)
    requires Inv(s)
    ensures Inv(s.(clock := s.clock + ms))
  {
    var s' := s.(clock := s.clock + ms);
    forall u | u in s'.txs ensures TxOk(s', s'.txs[u]) { assert TxOk(s, s.txs[u]); }
    forall k ensures KeyOk(s', k) { assert KeyOk(s, k); }
  }

  lemma BeginKeepsInv(s: State, t: TxId, id: Id, req: Request)
    requires Inv(s) && Enabled(s, Begin(t, id, req))
    ensures Inv(Apply(s, Begin(t, id, req)))
  {
    StepKeepsInv(s, t, Tx(id, req, map[], Locking(0), s.clock));
  }

  /** Every step keeps the invariant. */
  lemma NextKeepsInv(s: State, a: Action)
    requires Inv(s) && Enabled(s, a)
    ensures Inv(Apply(s, a))
  {
    hide Inv, Outcome, RunBody, Install, Execute, EventOf;
    match a
    case Open(id, currency, owner) => ServeKeepsInv(s, CreateAccount(id, currency, owner));
    case ChangeStatus(id, status) => ServeKeepsInv(s, SetStatus(id, status));
    case Begin(t, id, req) => BeginKeepsInv(s, t, id, req);
    case Lock(t) => LockKeepsInv(s, t);
    case Post(t) => OwnStepKeepsInv(s, t, Written(Outcome(s, s.txs[t]).value));
    case TakeKey(t) => OwnStepKeepsInv(s, t, KeyTaken(s.txs[t].phase.changes));
    case CommitTx(t) => CommitKeepsInv(s, t);
    case Reject(t) => DropKeepsInv(s, t);
    case Abort(t) => DropKeepsInv(s, t);
    case Run(stmt) => RunKeepsInv(s, stmt);
    case Tick(ms) => TickKeepsInv(s, ms);
  }

  lemma OwnStepKeepsInv(s: State, t: TxId, phase: Phase)
    requires Inv(s) && (Enabled(s, Post(t)) || Enabled(s, TakeKey(t)))
    requires phase ==
      if s.txs[t].phase.Locking? then Written(Outcome(s, s.txs[t]).value) else KeyTaken(s.txs[t].phase.changes)
    ensures Inv(s.(txs := s.txs[t := s.txs[t].(phase := phase)]))
  {
    hide RunBody;
    var x := s.txs[t];
    var y := x.(phase := phase);
    assert TxOk(s, x);
    assert Outcome(s, y) == Outcome(s, x);
    var order := LockOrder(x.req);
    assert order[..|order|] == order;
    forall u | u in s.txs && u != t
      ensures Exclusive(y, s.txs[u]) && Exclusive(s.txs[u], y)
    {
      assert Exclusive(x, s.txs[u]) && Exclusive(s.txs[u], x);
    }
    StepKeepsInv(s, t, y);
  }

  lemma InitHasInv(s: State)
    requires Init(s)
    ensures Inv(s)
  {
  }

  lemma SettingsStay(s: State, a: Action)
    requires Enabled(s, a)
    ensures Apply(s, a).initial == s.initial && Apply(s, a).staleTimeout == s.staleTimeout
  {
    hide Outcome, Install, ExecuteAlone, Execute, EventOf;
  }

  /** Every state of every run satisfies the invariant. */
  lemma {:induction false} Reachable(states: seq<State>, actions: seq<Action>, i: nat)
    requires IsRun(states, actions) && i <= |actions|
    ensures Inv(states[i])
    ensures states[i].initial == states[0].initial && states[i].staleTimeout == states[0].staleTimeout
  {
    hide Inv, Init, Enabled, Apply;
    if i == 0 {
      InitHasInv(states[0]);
    } else {
      Reachable(states, actions, i - 1);
      assert StepAt(states, actions, i - 1);
      NextKeepsInv(states[i - 1], actions[i - 1]);
      SettingsStay(states[i - 1], actions[i - 1]);
    }
  }
}
