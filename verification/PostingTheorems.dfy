/** What every run of the posting system guarantees, however its steps interleave. */
module PostingTheorems {
  import opened Basics
  import opened Ledger
  import opened Requests
  import opened Idempotency
  import opened Postings
  import DB = LedgerDatabase
  import Reconciliation

  // ---------------------------------------------------------------- serial equivalence

  /** The owner, status, currency and funds checks of a transfer, on one book. */
  predicate TransferChecks(book: Book, req: Request)
    requires req.Transfer?
  {
    && req.source in book.accounts && req.destination in book.accounts
    && var source, destination := book.accounts[req.source], book.accounts[req.destination];
    && !source.isTreasury && !destination.isTreasury
    && source.owner == Some(req.principal)
    && source.status == Active && destination.status == Active
    && source.currency == destination.currency
    && 0 < req.amount <= source.balance
  }

  /** Position `i` of an executable history: the state before it, and the one step it makes. */
  lemma SerialStep(initial: Book, history: seq<Op>, i: nat)
    requires ExecuteSerially(initial, history).Some? && i < |history|
    ensures ExecuteSerially(initial, history[..i]).Some?
    ensures var before := ExecuteSerially(initial, history[..i]).value;
      && ExecuteAlone(before, history[i]).Some?
      && ExecuteSerially(initial, history[..i + 1]) == ExecuteAlone(before, history[i])
  {
    SerialPrefix(initial, history, i);
    SerialPrefix(initial, history, i + 1);
    assert history[..i + 1][..i] == history[..i];
  }

  /** A transfer that executes alone passed its checks and moved exactly its amount. */
  lemma ExecutedTransfer(before: Book, op: Op)
    requires op.Commit? && op.req.Transfer? && ExecuteAlone(before, op).Some?
    ensures TransferChecks(before, op.req) && MovesAmount(before, op)
  {
    TwoEntries(before, op.id, op.req);
  }

  /**
   * The committed book of every run is what executing the committed operations one at a time, in
   * commit order, gives.
   */
  lemma SerialEquivalence(states: seq<State>, actions: seq<Action>)
    requires IsRun(states, actions)
    ensures ExecuteSerially(states[0].initial, states[|actions|].history) == Some(states[|actions|].book)
  {
    Reachable(states, actions, |actions|);
  }

  /**
   * Each committed transfer's owner, status, currency and funds checks hold in the serial state
   * just before it, and from there exactly its amount moves from source to destination.
   */
  lemma ChecksHoldSerially(states: seq<State>, actions: seq<Action>, i: nat)
    requires IsRun(states, actions)
    requires i < |states[|actions|].history|
    ensures var history := states[|actions|].history;
      && ExecuteSerially(states[0].initial, history[..i]).Some?
      && var before := ExecuteSerially(states[0].initial, history[..i]).value;
      && ExecuteSerially(states[0].initial, history[..i + 1]) == ExecuteAlone(before, history[i])
      && (history[i].Commit? && history[i].req.Transfer? ==>
            TransferChecks(before, history[i].req) && MovesAmount(before, history[i]))
  {
    Reachable(states, actions, |actions|);
    var history := states[|actions|].history;
    SerialStep(states[0].initial, history, i);
    if history[i].Commit? && history[i].req.Transfer? {
      ExecutedTransfer(ExecuteSerially(states[0].initial, history[..i]).value, history[i]);
    }
  }

  /** Executing the transfer changes the two balances by the amount and no other account. */
  predicate MovesAmount(before: Book, op: Op)
    requires op.Commit? && op.req.Transfer? && TransferChecks(before, op.req)
  {
    && ExecuteAlone(before, op).Some?
    && var source, destination := before.accounts[op.req.source], before.accounts[op.req.destination];
    && ExecuteAlone(before, op).value.accounts == before.accounts
         [op.req.destination := destination.(balance := destination.balance + op.req.amount)]
         [op.req.source := source.(balance := source.balance - op.req.amount)]
  }

  /** In every reachable state the cache agrees with the journal, nothing is created or lost, and balances are legal. */
  lemma BooksAlwaysAgree(states: seq<State>, actions: seq<Action>)
    requires IsRun(states, actions)
    ensures var book := states[|actions|].book;
      && (forall id :: id in book.accounts ==>
            && book.accounts[id].balance == AccountSum(book.journal, id)
            && MIN_BIGINT <= book.accounts[id].balance <= MAX_BIGINT
            && (!book.accounts[id].isTreasury ==> book.accounts[id].balance >= 0))
      && (forall c :: BookTotal(book.accounts, c) == 0)
      && (forall tx :: tx in book.transactions ==> CommitCheck(book, tx))
  {
    Reachable(states, actions, |actions|);
    var book := states[|actions|].book;
    assert AllBalancesAllowed(book) && CacheAgrees(book);
  }

  /**
   * In every reachable state each transfer row says exactly what its journal entries say, and exactly
   * the transactions of kind transfer have one.
   */
  lemma TransfersMirrorJournal(states: seq<State>, actions: seq<Action>)
    requires IsRun(states, actions) && TransfersMirrored(states[0].initial)
    ensures TransfersMirrored(states[|actions|].book)
    ensures KindsMatch(states[0].initial) ==> KindsMatch(states[|actions|].book)
  {
    Reachable(states, actions, |actions|);
    HistoryKeepsTransfers(states[0].initial, states[|actions|].history);
  }

  lemma {:induction false} HistoryKeepsTransfers(initial: Book, history: seq<Op>)
    requires BookInv(initial) && TransfersMirrored(initial) && ExecuteSerially(initial, history).Some?
    ensures var book := ExecuteSerially(initial, history).value;
      BookInv(book) && TransfersMirrored(book) && (KindsMatch(initial) ==> KindsMatch(book))
  {
    hide TransfersMirrored, KindsMatch;
    if |history| > 0 {
      var before, op := history[..|history| - 1], history[|history| - 1];
      HistoryKeepsTransfers(initial, before);
      OperationKeepsBook(ExecuteSerially(initial, before).value, op);
      OperationKeepsTransfers(ExecuteSerially(initial, before).value, op);
      if KindsMatch(initial) { OperationKeepsKinds(ExecuteSerially(initial, before).value, op); }
    }
  }

  /** Reconciliation reports ok in every reachable state. */
  lemma EveryRunReconciles(states: seq<State>, actions: seq<Action>)
    requires IsRun(states, actions)
    ensures var book := states[|actions|].book;
      Reconciliation.ClassifyAll(
        Reconciliation.JoinRows(book.accounts, book.journal,
                                Reconciliation.KnownIds(book.accounts, book.journal))) == []
  {
    Reachable(states, actions, |actions|);
    Reconciliation.ConsistentBookReconciles(states[|actions|].book);
  }

  // ---------------------------------------------------------------- the interleaved attempt is the one transaction

  /**
   * However long ago its statements ran, a committing attempt leaves exactly the tables that the
   * whole transaction, run at once on the tables it commits into, would leave.
   */
  lemma CommitIsOneTransaction(s: State, t: TxId, events: seq<Id>)
    requires TxInv(s) && Enabled(s, CommitTx(t))
    ensures var x, s' := s.txs[t], Apply(s, CommitTx(t));
      DB.CommitRequest(DB.Tables(s.book, s.keys, events), x.id, x.req, x.startedAt)
        == Ok(DB.Tables(s'.book, s'.keys, events + [x.id]))
  {
    hide RunBody;
    assert TxOk(s, s.txs[t]);
    CommitIsSerial(s, t);
  }

  // ---------------------------------------------------------------- committed history is append-only

  /**
   * Committed ledger transactions and journal entries are what they were, nothing was added to an
   * old transaction, and no account changed its currency, owner or treasury flag.
   */
  predicate OnlyAppends(before: Book, after: Book) {
    && before.journal <= after.journal
    && (forall tx :: tx in before.transactions ==>
          tx in after.transactions && after.transactions[tx] == before.transactions[tx])
    && (forall e :: e in after.journal[|before.journal|..] ==> e.tx !in before.transactions)
    && IdentityKept(before.accounts, after.accounts)
  }

  lemma CommitAppends(s: State, t: TxId)
    requires TxInv(s) && Enabled(s, CommitTx(t))
    ensures OnlyAppends(s.book, Apply(s, CommitTx(t)).book)
  {
    hide RunBody, Outcome;
    var x := s.txs[t];
    assert TxOk(s, x);
    ChangesOf(s, x);
    InstallFrame(s.book, x.phase.changes, x.rows);
    NewEntries(s, x);
  }

  lemma StatementAppends(book: Book, op: Op)
    requires !op.Commit? && ExecuteAlone(book, op).Some?
    ensures OnlyAppends(book, ExecuteAlone(book, op).value)
  {
    AccountStatementFrame(book, op);
  }

  lemma NothingAppended(book: Book)
    ensures OnlyAppends(book, book)
  {
  }

  lemma NextOnlyAppends(s: State, a: Action)
    requires TxInv(s) && Enabled(s, a)
    ensures OnlyAppends(s.book, Apply(s, a).book)
  {
    hide OnlyAppends, RunBody, Outcome, TxInv, Execute, EventOf, Install;
    NothingAppended(s.book);
    match a
    case Open(id, currency, owner) => StatementAppends(s.book, CreateAccount(id, currency, owner));
    case ChangeStatus(id, status) => StatementAppends(s.book, SetStatus(id, status));
    case CommitTx(t) => CommitAppends(s, t);
    case _ =>
  }

  /** From any point of any run to any later one, the committed ledger was only appended to. */
  lemma {:induction false} CommittedHistoryIsAppendOnly(states: seq<State>, actions: seq<Action>, i: nat, j: nat)
    requires IsRun(states, actions) && i <= j <= |actions|
    ensures OnlyAppends(states[i].book, states[j].book)
  {
    if i < j {
      CommittedHistoryIsAppendOnly(states, actions, i, j - 1);
      Reachable(states, actions, j - 1);
      assert StepAt(states, actions, j - 1);
      NextOnlyAppends(states[j - 1], actions[j - 1]);
      AppendsTwice(states[i].book, states[j - 1].book, states[j].book);
    }
  }

  lemma AppendsTwice(a: Book, b: Book, c: Book)
    requires OnlyAppends(a, b) && OnlyAppends(b, c)
    ensures OnlyAppends(a, c)
  {
    forall e | e in c.journal[|a.journal|..]
      ensures e.tx !in a.transactions
    {
      assert c.journal[|a.journal|..] == b.journal[|a.journal|..] + c.journal[|b.journal|..];
    }
  }

  lemma NewEntries(s: State, x: Tx)
    requires TxOk(s, x) && ReadyToCommit(x)
    ensures forall e :: e in x.phase.changes.journal ==> e.tx == x.id
  {
    var view := View(s.book, x.rows, x.id);
    UnnestFacts(view, PostingOf(x.id, x.req));
  }

  // ---------------------------------------------------------------- one posting per key

  /** Step `i` deletes the key's row in a purge. */
  predicate PurgesAt(states: seq<State>, actions: seq<Action>, k: Key, i: nat)
    requires i < |actions| && |states| == |actions| + 1
  {
    actions[i].Run? && actions[i].stmt.Purge? && k in states[i].keys && k !in states[i + 1].keys
  }

  /** Step `i` commits a posting under the key. */
  predicate PostsAt(states: seq<State>, actions: seq<Action>, k: Key, i: nat)
    requires i < |actions| && |states| == |actions| + 1
  {
    actions[i].CommitTx? && actions[i].t in states[i].txs && states[i].txs[actions[i].t].req.key == Some(k)
  }

  function Purges(states: seq<State>, actions: seq<Action>, k: Key, n: nat): nat
    requires n <= |actions| && |states| == |actions| + 1
  {
    if n == 0 then 0 else Purges(states, actions, k, n - 1) + if PurgesAt(states, actions, k, n - 1) then 1 else 0
  }

  function PostingsUnder(states: seq<State>, actions: seq<Action>, k: Key, n: nat): nat
    requires n <= |actions| && |states| == |actions| + 1
  {
    if n == 0 then 0 else PostingsUnder(states, actions, k, n - 1) + if PostsAt(states, actions, k, n - 1) then 1 else 0
  }

  lemma PurgeCountOneMore(log: KeyLog, more: KeyLog)
    requires |more| <= 1
    ensures PurgeCount(log + more) == PurgeCount(log) + if more != [] && more[0].Purged? then 1 else 0
  {
    if more == [] {
      assert log + more == log;
    } else {
      assert (log + more)[..|log|] == log;
    }
  }

  lemma StepCounts(s: State, a: Action, k: Key)
    requires Enabled(s, a)
    ensures var s' := Apply(s, a);
      && PurgeCount(LogOf(s', k)) == PurgeCount(LogOf(s, k)) +
           (if a.Run? && a.stmt.Purge? && k in s.keys && k !in s'.keys then 1 else 0)
      && KeyPostings(s'.history, k) == KeyPostings(s.history, k) +
           (if a.CommitTx? && s.txs[a.t].req.key == Some(k) then 1 else 0)
  {
    hide PurgeCount, RunBody, Outcome, Install;
    if a.Run? {
      PurgeCountOneMore(LogOf(s, k), EventOf(s.keys, a.stmt, s.clock));
    } else if |Apply(s, a).history| > |s.history| {
      assert Apply(s, a).history[..|s.history|] == s.history;
    }
  }

  /** What the machine remembers of a key is what its run did. */
  lemma {:induction false} RecordsAreTrue(states: seq<State>, actions: seq<Action>, k: Key, n: nat)
    requires IsRun(states, actions) && n <= |actions|
    ensures PurgeCount(LogOf(states[n], k)) == Purges(states, actions, k, n)
    ensures KeyPostings(states[n].history, k) == PostingsUnder(states, actions, k, n)
  {
    hide Enabled, Apply, PurgeCount;
    if n == 0 {
      NothingRecorded(states[0], k);
    } else {
      RecordsAreTrue(states, actions, k, n - 1);
      assert StepAt(states, actions, n - 1);
      StepCounts(states[n - 1], actions[n - 1], k);
      CommitterIsThere(states[n - 1], actions[n - 1]);
    }
  }

  lemma NothingRecorded(s: State, k: Key)
    requires Init(s)
    ensures PurgeCount(LogOf(s, k)) == 0 && KeyPostings(s.history, k) == 0
  {
  }

  lemma CommitterIsThere(s: State, a: Action)
    requires Enabled(s, a)
    ensures a.CommitTx? ==> a.t in s.txs
  {
  }

  /**
   * Whatever duplicates, stale reclaims, crashes, releases and late settlements the run contains:
   * the postings committed under a key never exceed one plus the number of purges of its row; the
   * row answers 201 exactly when one posting is not accounted for by a purge, and then it is the
   * answer of the key's latest committed posting.
   */
  lemma AtMostOnePostingPerKey(states: seq<State>, actions: seq<Action>, k: Key)
    requires IsRun(states, actions)
    ensures PostingsUnder(states, actions, k, |actions|) <= 1 + Purges(states, actions, k, |actions|)
    ensures var end := states[|actions|];
      var postings, log := KeyPostings(end.history, k), LogOf(end, k);
      && postings <= 1 + PurgeCount(log)
      && (AnswersPosting(end.keys, k) <==> postings == PostingPurges(log) + 1)
      && (!AnswersPosting(end.keys, k) <==> postings == PostingPurges(log))
      && (AnswersPosting(end.keys, k) ==>
            && LastPosting(end.history, k).Some?
            && end.keys[k].progress.response == PostedResponse(LastPosting(end.history, k).value)
            && LastPosting(end.history, k).value in end.book.transactions)
  {
    Reachable(states, actions, |actions|);
    var end := states[|actions|];
    RecordsAreTrue(states, actions, k, |actions|);
    assert KeyOk(end, k);
    PostingPurgesArePurges(LogOf(end, k));
    LastPostingCommitted(end.initial, end.history, k);
  }

  lemma {:induction false} LastPostingCommitted(initial: Book, history: seq<Op>, k: Key)
    requires ExecuteSerially(initial, history).Some?
    ensures LastPosting(history, k).Some? ==>
      LastPosting(history, k).value in ExecuteSerially(initial, history).value.transactions
  {
    if |history| > 0 {
      LastPostingCommitted(initial, history[..|history| - 1], k);
    }
  }

  /**
   * Two callers that proceed on one key's row, with no release or purge between, are more than the
   * stale timeout apart.
   */
  lemma ReclaimsAreSpaced(states: seq<State>, actions: seq<Action>, k: Key, i: nat, j: nat)
    requires IsRun(states, actions)
    requires i < j < |LogOf(states[|actions|], k)|
    requires var log := LogOf(states[|actions|], k); log[i].Proceeded? && log[j].Proceeded? && Undisturbed(log, i, j)
    ensures var log := LogOf(states[|actions|], k); log[j].time - log[i].time > states[0].staleTimeout
  {
    Reachable(states, actions, |actions|);
    assert KeyOk(states[|actions|], k);
  }

  // ---------------------------------------------------------------- a completed answer is stable

  /** A purge old enough to take the row `r` of key `k`. */
  predicate PurgesRow(a: Action, k: Key, r: Record) {
    a.Run? && a.stmt.Purge? && a.stmt.key == k && r.progress.Completed? && r.progress.completedAt < a.stmt.cutoff
  }

  /**
   * Once a key's row is completed, no claim, reclaim, release, settlement or posting step changes
   * it and nobody proceeds on it, until a purge that its age allows.
   */
  lemma {:induction false} ReplayIsStable(states: seq<State>, actions: seq<Action>, k: Key, i: nat, j: nat)
    requires IsRun(states, actions) && i <= j <= |actions|
    requires k in states[i].keys && states[i].keys[k].progress.Completed?
    requires forall m :: i <= m < j ==> !PurgesRow(actions[m], k, states[i].keys[k])
    ensures k in states[j].keys && states[j].keys[k] == states[i].keys[k]
    ensures LogOf(states[j], k) == LogOf(states[i], k)
  {
    if i < j {
      ReplayIsStable(states, actions, k, i, j - 1);
      Reachable(states, actions, j - 1);
      assert StepAt(states, actions, j - 1);
      CompletedRowStays(states[j - 1], actions[j - 1], k);
    }
  }

  lemma CompletedRowStays(s: State, a: Action, k: Key)
    requires TxInv(s) && Enabled(s, a)
    requires k in s.keys && s.keys[k].progress.Completed? && !PurgesRow(a, k, s.keys[k])
    ensures k in Apply(s, a).keys && Apply(s, a).keys[k] == s.keys[k] && LogOf(Apply(s, a), k) == LogOf(s, k)
  {
    hide RunBody;
    if a.CommitTx? {
      assert TxOk(s, s.txs[a.t]);
    }
  }

  // ---------------------------------------------------------------- deadlock freedom

  datatype Resource = AccountRow(id: Id) | KeyRow(key: Key)

  /** The row lock an attempt asks for next. */
  function Wants(s: State, x: Tx): Option<Resource> {
    match x.phase
    case Locking(n) =>
      if n < |LockOrder(x.req)| && LockOrder(x.req)[n] in s.book.accounts
      then Some(AccountRow(LockOrder(x.req)[n])) else None
    case Written(_) => if x.req.key.Some? then Some(KeyRow(x.req.key.value)) else None
    case KeyTaken(_) => None
  }

  predicate Holds(x: Tx, r: Resource) {
    match r
    case AccountRow(id) => id in x.rows
    case KeyRow(k) => HoldsKey(x, k)
  }

  /** Account rows in ascending id order, every key row after all of them. */
  predicate Before(a: Resource, b: Resource) {
    a.AccountRow? && (b.AccountRow? ==> a.id < b.id)
  }

  predicate WaitsFor(s: State, t: TxId, u: TxId) {
    && t in s.txs && u in s.txs && t != u
    && Wants(s, s.txs[t]).Some? && Holds(s.txs[u], Wants(s, s.txs[t]).value)
  }

  predicate Blocked(s: State, t: TxId) {
    exists u :: u in s.txs && WaitsFor(s, t, u)
  }

  /** Whoever holds a wanted row wants, if anything, a later one. */
  lemma HolderWantsLater(s: State, t: TxId, u: TxId)
    requires TxInv(s) && WaitsFor(s, t, u) && Wants(s, s.txs[u]).Some?
    ensures Before(Wants(s, s.txs[t]).value, Wants(s, s.txs[u]).value)
  {
    hide RunBody;
    assert TxOk(s, s.txs[t]) && TxOk(s, s.txs[u]);
    var order := LockOrder(s.txs[u].req);
    if s.txs[u].phase.Locking? && Wants(s, s.txs[t]).value.AccountRow? {
      var id := Wants(s, s.txs[t]).value.id;
      assert id in order[..s.txs[u].phase.next];
    }
  }

  /** Two or more attempts, each waiting for the next. */
  predicate WaitChain(s: State, chain: seq<TxId>)
    decreases |chain|
  {
    && |chain| >= 2
    && WaitsFor(s, chain[|chain| - 2], chain[|chain| - 1])
    && (|chain| > 2 ==> WaitChain(s, chain[..|chain| - 1]))
  }

  ghost predicate Ascending(s: State) {
    forall t, u :: WaitsFor(s, t, u) && Wants(s, s.txs[u]).Some? ==>
      Before(Wants(s, s.txs[t]).value, Wants(s, s.txs[u]).value)
  }

  lemma WaitsAscend(s: State)
    requires TxInv(s)
    ensures Ascending(s)
  {
    forall t, u | WaitsFor(s, t, u) && Wants(s, s.txs[u]).Some?
      ensures Before(Wants(s, s.txs[t]).value, Wants(s, s.txs[u]).value)
    {
      HolderWantsLater(s, t, u);
    }
  }

  lemma {:induction false} ChainAscends(s: State, chain: seq<TxId>)
    requires Ascending(s) && WaitChain(s, chain)
    ensures chain[0] in s.txs && Wants(s, s.txs[chain[0]]).Some? && chain[|chain| - 1] in s.txs
    ensures var last := s.txs[chain[|chain| - 1]];
      Wants(s, last).Some? ==> Before(Wants(s, s.txs[chain[0]]).value, Wants(s, last).value)
    decreases |chain|
  {
    if |chain| > 2 {
      var prefix := chain[..|chain| - 1];
      ChainAscends(s, prefix);
      assert prefix[0] == chain[0] && prefix[|prefix| - 1] == chain[|chain| - 2];
    }
  }

  /** In every reachable state the wait-for relation has no cycle, of any length. */
  lemma NoWaitCycle(states: seq<State>, actions: seq<Action>, chain: seq<TxId>)
    requires IsRun(states, actions) && WaitChain(states[|actions|], chain)
    ensures chain[0] != chain[|chain| - 1]
  {
    Reachable(states, actions, |actions|);
    WaitsAscend(states[|actions|]);
    ChainAscends(states[|actions|], chain);
  }

  /** The step an unblocked attempt takes on its own behalf. */
  predicate OwnStep(a: Action, t: TxId) {
    a == Lock(t) || a == Post(t) || a == TakeKey(t) || a == CommitTx(t) || a == Reject(t)
  }

  lemma LockOrBlocked(s: State, t: TxId)
    requires TxInv(s) && t in s.txs && s.txs[t].phase.Locking? && s.txs[t].phase.next < |LockOrder(s.txs[t].req)|
    ensures Enabled(s, Lock(t)) || Blocked(s, t)
  {
    hide RunBody;
    var x := s.txs[t];
    var id := LockOrder(x.req)[x.phase.next];
    if RowLocked(s, id) {
      var u :| u in s.txs && id in s.txs[u].rows;
      assert TxOk(s, x) && TxOk(s, s.txs[u]);
      assert id !in LockOrder(x.req)[..x.phase.next];
      assert WaitsFor(s, t, u);
    }
  }

  lemma KeyOrBlocked(s: State, t: TxId)
    requires t in s.txs && s.txs[t].phase.Written? && s.txs[t].req.key.Some?
    ensures Enabled(s, TakeKey(t)) || Enabled(s, Reject(t)) || Blocked(s, t)
  {
    var k := s.txs[t].req.key.value;
    if KeyLocked(s, k) {
      var u :| u in s.txs && HoldsKey(s.txs[u], k);
      assert WaitsFor(s, t, u);
    }
  }

  lemma BlockedOrCanStep(s: State, t: TxId) returns (a: Action)
    requires TxInv(s) && t in s.txs
    ensures OwnStep(a, t) && (Enabled(s, a) || Blocked(s, t))
  {
    hide RunBody;
    var x := s.txs[t];
    if x.phase.Locking? && x.phase.next < |LockOrder(x.req)| {
      LockOrBlocked(s, t);
      a := Lock(t);
    } else if x.phase.Locking? {
      assert TxOk(s, x);
      a := if Enabled(s, Post(t)) then Post(t) else Reject(t);
    } else if x.phase.Written? && x.req.key.Some? {
      KeyOrBlocked(s, t);
      a := if Enabled(s, TakeKey(t)) then TakeKey(t) else Reject(t);
    } else {
      assert TxOk(s, x);
      a := CommitTx(t);
    }
  }

  /** The attempts that want a row after the one `t` wants. */
  function WantsLater(s: State, t: TxId): set<TxId>
    requires t in s.txs
  {
    set u | u in s.txs && Wants(s, s.txs[t]).Some? && Wants(s, s.txs[u]).Some?
            && Before(Wants(s, s.txs[t]).value, Wants(s, s.txs[u]).value)
  }

  lemma {:induction false} FollowWaits(s: State, t: TxId) returns (u: TxId)
    requires TxInv(s) && t in s.txs
    ensures u in s.txs && !Blocked(s, u)
    decreases WantsLater(s, t)
  {
    u := t;
    if Blocked(s, t) {
      var holder :| holder in s.txs && WaitsFor(s, t, holder);
      if Wants(s, s.txs[holder]).Some? {
        HolderWantsLater(s, t, holder);
        assert holder in WantsLater(s, t) && holder !in WantsLater(s, holder);
        assert WantsLater(s, holder) <= WantsLater(s, t);
        u := FollowWaits(s, holder);
      } else {
        u := holder;
      }
    }
  }

  /** While any attempt is unfinished, some attempt can take its next step without anybody aborting. */
  lemma SomeoneCanStep(states: seq<State>, actions: seq<Action>) returns (t: TxId, a: Action)
    requires IsRun(states, actions) && states[|actions|].txs != map[]
    ensures t in states[|actions|].txs && OwnStep(a, t) && Enabled(states[|actions|], a)
  {
    Reachable(states, actions, |actions|);
    var end := states[|actions|];
    var any :| any in end.txs;
    t := FollowWaits(end, any);
    a := BlockedOrCanStep(end, t);
  }
}
