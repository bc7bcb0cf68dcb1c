/**
 * Transfers and fundings as whole operations on the book: the service's checks in their order, the
 * posting they build, and the serial meaning of a history of committed operations.
 */
module Requests {
  import opened Basics
  import opened Ledger

  datatype Operation = TransferOperation | FundingOperation

  /** Identity of an idempotency row: (principal, key, operation). */
  datatype Key = Key(principal: Principal, text: nat, operation: Operation)

  datatype Request =
    | Transfer(principal: Principal, source: Id, destination: Id, amount: int, key: Option<Key>)
    | Funding(account: Id, treasury: Id, amount: int, key: Option<Key>)

  datatype RequestError =
    | AccountNotFound
    | AccountNotActive
    | CurrencyMismatch
    | InsufficientFunds
    | TreasuryNotFound
    | Rejected(sql: SqlError)

  /** What is checked before any transaction starts: `Money.fromMinor` and distinct accounts. */
  predicate WellFormed(req: Request) {
    && 0 < req.amount <= MAX_BIGINT
    && (req.Transfer? ==> req.source != req.destination)
  }

  // ---------------------------------------------------------------- one request on a book

  /** The checks `TransferService.create` makes on the locked rows, in its order. */
  function CheckTransfer(accounts: map<Id, Account>, req: Request): Option<RequestError>
    requires req.Transfer?
  {
    if req.source !in accounts || accounts[req.source].isTreasury
       || req.destination !in accounts || accounts[req.destination].isTreasury then Some(AccountNotFound)
    else
      var source, destination := accounts[req.source], accounts[req.destination];
      if source.owner != Some(req.principal) then Some(AccountNotFound)
      else if source.status != Active || destination.status != Active then Some(AccountNotActive)
      else if source.currency != destination.currency then Some(CurrencyMismatch)
      else if source.balance < req.amount then Some(InsufficientFunds)
      else None
  }

  /** The reads `fundAccount` makes before its transaction. */
  function CheckFunding(accounts: map<Id, Account>, req: Request): Option<RequestError>
    requires req.Funding?
  {
    if req.account !in accounts || accounts[req.account].isTreasury then Some(AccountNotFound)
    else if accounts[req.account].status != Active then Some(AccountNotActive)
    else if !TreasuryOf(accounts, req.account, req.treasury) then Some(TreasuryNotFound)
    else None
  }

  predicate TreasuryOf(accounts: map<Id, Account>, id: Id, treasury: Id) {
    && id in accounts && treasury in accounts
    && accounts[treasury].isTreasury && accounts[treasury].currency == accounts[id].currency
  }

  /**
   * A transfer credits its source and debits its destination; a funding debits the account and
   * credits the treasury.
   */
  function PostingOf(id: Id, req: Request): Posting {
    match req
    case Transfer(_, source, destination, amount, _) =>
      Posting(id, TransferKind, [2 * id, 2 * id + 1], [source, destination], [Credit, Debit], [amount, amount])
    case Funding(account, treasury, amount, _) =>
      Posting(id, FundingKind, [2 * id, 2 * id + 1], [account, treasury], [Debit, Credit], [amount, amount])
  }

  /** The transaction body: what runs between BEGIN and COMMIT, on the rows it sees. */
  function RunBody(book: Book, id: Id, req: Request): Result<Book, RequestError> {
    if req.Transfer? && CheckTransfer(book.accounts, req).Some? then Err(CheckTransfer(book.accounts, req).value)
    else
      match PostLedger(book, PostingOf(id, req))
      case Err(e) => Err(Rejected(e))
      case Ok(posted) =>
        if req.Funding? then Ok(posted)
        else Ok(posted.(transfers := posted.transfers[id :=
          TransferRow(req.source, req.destination, req.amount, book.accounts[req.source].currency)]))
  }

  // ---------------------------------------------------------------- serial histories

  datatype Op =
    | CreateAccount(id: Id, currency: Currency, owner: Principal)
    | SetStatus(id: Id, status: Status)
    | Commit(id: Id, req: Request)

  /** One operation executed alone, every check of the code made against this very book. */
  function ExecuteAlone(book: Book, op: Op): Option<Book> {
    match op
    case CreateAccount(id, currency, owner) =>
      if id in book.accounts then None
      else Some(book.(accounts := book.accounts[id := Account(currency, Active, 0, false, Option.Some(owner))]))
    case SetStatus(id, status) =>
      if id !in book.accounts then None
      else Some(book.(accounts := book.accounts[id := book.accounts[id].(status := status)]))
    case Commit(id, req) =>
      if !WellFormed(req) then None
      else if req.Funding? && CheckFunding(book.accounts, req).Some? then None
      else
        match RunBody(book, id, req)
        case Err(_) => None
        case Ok(after) => Some(after)
  }

  /** The history executed one operation at a time; `None` as soon as an operation is refused. */
  function ExecuteSerially(book: Book, history: seq<Op>): Option<Book> {
    if |history| == 0 then Some(book)
    else
      match ExecuteSerially(book, history[..|history| - 1])
      case None => None
      case Some(before) => ExecuteAlone(before, history[|history| - 1])
  }

  /** Everything before position `i` of an executable history also executes. */
  lemma {:induction false} SerialPrefix(book: Book, history: seq<Op>, i: nat)
    requires i <= |history| && ExecuteSerially(book, history).Some?
    ensures ExecuteSerially(book, history[..i]).Some?
  {
    if i < |history| {
      assert history[..|history| - 1][..i] == history[..i];
      SerialPrefix(book, history[..|history| - 1], i);
    } else {
      assert history[..i] == history;
    }
  }

  /**
   * A transfer executes alone exactly when its owner, status, currency and funds checks hold (and the
   * posting fits).
   */
  lemma TransferExecutesIff(book: Book, id: Id, req: Request)
    requires req.Transfer? && WellFormed(req) && AllBalancesAllowed(book)
    ensures ExecuteAlone(book, Commit(id, req)).Some? <==>
      && req.source in book.accounts && req.destination in book.accounts
      && !book.accounts[req.source].isTreasury && !book.accounts[req.destination].isTreasury
      && book.accounts[req.source].owner == Some(req.principal)
      && book.accounts[req.source].status == Active && book.accounts[req.destination].status == Active
      && book.accounts[req.source].currency == book.accounts[req.destination].currency
      && req.amount <= book.accounts[req.source].balance
      && book.accounts[req.destination].balance + req.amount <= MAX_BIGINT
      && id !in book.transactions
  {
    if CheckTransfer(book.accounts, req).None? {
      TwoEntries(book, id, req);
      var p := PostingOf(id, req);
      var after := FoldEntries(book.accounts, Unnest(p, book.accounts[p.accountIds[0]].currency));
      assert req.destination in p.accountIds by { assert p.accountIds[1] == req.destination; }
      assert BalanceAllowed(book.accounts[req.destination]) && BalanceAllowed(book.accounts[req.source]);
      assert BalancesAllowed(after, p) <==> after[req.destination].balance <= MAX_BIGINT;
    }
  }

  /** The two-entry posting spelled out: balanced, and each balance moves by the amount. */
  lemma TwoEntries(book: Book, id: Id, req: Request)
    requires WellFormed(req)
    requires req.Transfer? ==> CheckTransfer(book.accounts, req).None?
    requires req.Funding? ==> (
      && req.account != req.treasury
      && AccountsAvailable(book.accounts, PostingOf(id, req))
      && OneCurrency(book.accounts, PostingOf(id, req)))
    ensures var p := PostingOf(id, req);
      var up, down := if req.Transfer? then req.destination else req.account,
                      if req.Transfer? then req.source else req.treasury;
      && ValidEntryArrays(p) && ValidEntries(p) && AccountsAvailable(book.accounts, p) && OneCurrency(book.accounts, p)
      && var es := Unnest(p, book.accounts[p.accountIds[0]].currency);
      && SideTotal(es, id, Debit) == SideTotal(es, id, Credit) == req.amount
      && FoldEntries(book.accounts, es) == book.accounts[
           up := book.accounts[up].(balance := book.accounts[up].balance + req.amount)][
           down := book.accounts[down].(balance := book.accounts[down].balance - req.amount)]
  {
    var p := PostingOf(id, req);
    var es := Unnest(p, book.accounts[p.accountIds[0]].currency);
    assert |es| == 2 && es[..1] == [es[0]] && es[..1][..0] == [];
    assert SideTotal(es[..1], id, Debit) == if es[0].direction == Debit then req.amount else 0;
    assert SideTotal(es[..1], id, Credit) == if es[0].direction == Credit then req.amount else 0;
    assert FoldEntries(book.accounts, es[..1]) == ApplyEntry(book.accounts, es[0]);
    assert FoldEntries(book.accounts, es) == ApplyEntry(ApplyEntry(book.accounts, es[0]), es[1]);
  }

  // ---------------------------------------------------------------- what a request does, and why it is refused

  /**
   * `amount` moved from `source`, which belongs to `principal`, to `destination`: the two balances, a
   * credit of the one and a debit of the other, a finalized transaction and a transfer row.
   */
  predicate TransferMoves(before: Book, after: Book, id: Id, principal: Principal, source: Id, destination: Id,
                          amount: int)
  {
    && source in before.accounts && destination in before.accounts && source != destination
    && id !in before.transactions
    && var from, to := before.accounts[source], before.accounts[destination];
    && from.owner == Some(principal) && from.balance >= amount
    && after.accounts == before.accounts
         [destination := to.(balance := to.balance + amount)][source := from.(balance := from.balance - amount)]
    && after.journal == before.journal +
         [Entry(id, source, from.currency, Credit, amount), Entry(id, destination, from.currency, Debit, amount)]
    && after.transactions == before.transactions[id := LedgerTx(TransferKind, from.currency, true)]
    && after.transfers == before.transfers[id := TransferRow(source, destination, amount, from.currency)]
  }

  /** `amount` moved from the treasury to the account, as a funding: no transfer row. */
  predicate FundingMoves(before: Book, after: Book, id: Id, account: Id, treasury: Id, amount: int) {
    && account in before.accounts && treasury in before.accounts && account != treasury
    && id !in before.transactions
    && var to, from := before.accounts[account], before.accounts[treasury];
    && after.accounts == before.accounts
         [account := to.(balance := to.balance + amount)][treasury := from.(balance := from.balance - amount)]
    && after.journal == before.journal +
         [Entry(id, account, to.currency, Debit, amount), Entry(id, treasury, to.currency, Credit, amount)]
    && after.transactions == before.transactions[id := LedgerTx(FundingKind, to.currency, true)]
    && after.transfers == before.transfers
  }

  lemma TransferLeaves(book: Book, id: Id, req: Request)
    requires req.Transfer? && WellFormed(req) && RunBody(book, id, req).Ok?
    ensures TransferMoves(book, RunBody(book, id, req).value, id, req.principal, req.source, req.destination,
                          req.amount)
  {
    TwoEntries(book, id, req);
    var currency := book.accounts[req.source].currency;
    assert Unnest(PostingOf(id, req), currency) ==
      [Entry(id, req.source, currency, Credit, req.amount), Entry(id, req.destination, currency, Debit, req.amount)];
  }

  lemma FundingLeaves(book: Book, id: Id, req: Request)
    requires req.Funding? && WellFormed(req) && CheckFunding(book.accounts, req).None? && RunBody(book, id, req).Ok?
    ensures FundingMoves(book, RunBody(book, id, req).value, id, req.account, req.treasury, req.amount)
  {
    assert AccountsAvailable(book.accounts, PostingOf(id, req)) && OneCurrency(book.accounts, PostingOf(id, req));
    TwoEntries(book, id, req);
    var currency := book.accounts[req.account].currency;
    assert Unnest(PostingOf(id, req), currency) ==
      [Entry(id, req.account, currency, Debit, req.amount), Entry(id, req.treasury, currency, Credit, req.amount)];
  }

  /** Both are customer accounts and the source is the caller's. */
  predicate MayTransfer(accounts: map<Id, Account>, principal: Principal, source: Id, destination: Id) {
    && source in accounts && !accounts[source].isTreasury && accounts[source].owner == Some(principal)
    && destination in accounts && !accounts[destination].isTreasury
  }

  predicate BothActive(accounts: map<Id, Account>, source: Id, destination: Id)
    requires source in accounts && destination in accounts
  {
    accounts[source].status == Active && accounts[destination].status == Active
  }

  /** The accounts allow this transfer. */
  predicate Payable(accounts: map<Id, Account>, principal: Principal, source: Id, destination: Id, amount: int) {
    && MayTransfer(accounts, principal, source, destination) && BothActive(accounts, source, destination)
    && accounts[source].currency == accounts[destination].currency
    && amount <= accounts[source].balance && accounts[destination].balance + amount <= MAX_BIGINT
  }

  /** Which of its conditions a transfer fails first decides its error; with none failing it goes through. */
  lemma TransferRefusals(book: Book, id: Id, req: Request)
    requires req.Transfer? && WellFormed(req) && AllBalancesAllowed(book)
    ensures var r, a := RunBody(book, id, req), book.accounts;
      var seen := MayTransfer(a, req.principal, req.source, req.destination);
      var active := seen && BothActive(a, req.source, req.destination);
      var same := active && a[req.source].currency == a[req.destination].currency;
      var funded := same && req.amount <= a[req.source].balance;
      && (r == Err(AccountNotFound) <==> !seen)
      && (r == Err(AccountNotActive) <==> seen && !active)
      && (r == Err(CurrencyMismatch) <==> active && !same)
      && (r == Err(InsufficientFunds) <==> same && !funded)
      && (r == Err(Rejected(DuplicateTransaction)) <==> funded && id in book.transactions)
      && (r == Err(Rejected(BalanceRejected)) <==>
            funded && id !in book.transactions && a[req.destination].balance + req.amount > MAX_BIGINT)
      && (r.Ok? <==>
            Payable(a, req.principal, req.source, req.destination, req.amount) && id !in book.transactions)
  {
    TransferExecutesIff(book, id, req);
    if CheckTransfer(book.accounts, req).None? { TwoEntries(book, id, req); }
  }

  /** A funding goes through exactly when account and treasury are there, active, in one currency and in range. */
  lemma FundingExecutesIff(book: Book, id: Id, req: Request)
    requires req.Funding? && WellFormed(req) && AllBalancesAllowed(book)
    ensures var a := book.accounts;
      ExecuteAlone(book, Commit(id, req)).Some? <==>
        && req.account in a && !a[req.account].isTreasury && a[req.account].status == Active
        && req.treasury in a && a[req.treasury].isTreasury && a[req.treasury].status == Active
        && a[req.account].currency == a[req.treasury].currency
        && a[req.account].balance + req.amount <= MAX_BIGINT && a[req.treasury].balance - req.amount >= MIN_BIGINT
        && id !in book.transactions
  {
    var p := PostingOf(id, req);
    assert p.accountIds[0] == req.account && p.accountIds[1] == req.treasury;
    if CheckFunding(book.accounts, req).None? && AccountsAvailable(book.accounts, p) {
      assert req.treasury in p.accountIds;
      assert OneCurrency(book.accounts, p);
      TwoEntries(book, id, req);
      var after := FoldEntries(book.accounts, Unnest(p, book.accounts[p.accountIds[0]].currency));
      assert BalanceAllowed(book.accounts[req.account]) && BalanceAllowed(book.accounts[req.treasury]);
      assert BalancesAllowed(after, p) <==>
        after[req.account].balance <= MAX_BIGINT && after[req.treasury].balance >= MIN_BIGINT;
    } else if CheckFunding(book.accounts, req).None? {
      assert book.accounts[req.treasury].status != Active;
    }
  }

  lemma BodyKeepsBook(book: Book, id: Id, req: Request)
    requires RunBody(book, id, req).Ok? && BookInv(book)
    ensures BookInv(RunBody(book, id, req).value)
  {
    var posted := PostLedger(book, PostingOf(id, req)).value;
    PostLedgerKeepsBook(book, PostingOf(id, req));
    var after := RunBody(book, id, req).value;
    assert after == posted.(transfers := after.transfers);
    forall e | e in after.journal ensures EntryAllowed(after, e) { assert EntryAllowed(posted, e); }
    forall tx | tx in after.transactions ensures CommitCheck(after, tx) { assert CommitCheck(posted, tx); }
  }

  lemma OperationKeepsBook(book: Book, op: Op)
    requires BookInv(book) && ExecuteAlone(book, op).Some?
    ensures BookInv(ExecuteAlone(book, op).value)
  {
    var after := ExecuteAlone(book, op).value;
    match op
    case Commit(id, req) => BodyKeepsBook(book, id, req);
    case CreateAccount(id, currency, owner) =>
      forall e | e in book.journal ensures e.account != id { assert EntryAllowed(book, e); }
      AccountSumAbsent(book.journal, id);
      forall c ensures BookTotal(after.accounts, c) == 0 { AddAccount(book.accounts, id, after.accounts[id], c); }
      RowsKeepTransactions(book, after);
    case SetStatus(id, status) =>
      forall c ensures BookTotal(after.accounts, c) == 0 { ReplaceAccount(book.accounts, id, after.accounts[id], c); }
      RowsKeepTransactions(book, after);
  }

  lemma RowsKeepTransactions(book: Book, after: Book)
    requires JournalAllowed(book) && AllCommitted(book)
    requires after == book.(accounts := after.accounts) && book.accounts.Keys <= after.accounts.Keys
    requires forall id :: id in book.accounts ==> after.accounts[id].currency == book.accounts[id].currency
    ensures JournalAllowed(after) && AllCommitted(after)
  {
    forall e | e in after.journal ensures EntryAllowed(after, e) { assert EntryAllowed(book, e); }
    forall tx | tx in after.transactions ensures CommitCheck(after, tx) { assert CommitCheck(book, tx); }
  }

  /** A new account is an active, empty customer account of its owner; a status change changes the status only. */
  lemma AccountStatements(book: Book, id: Id, currency: Currency, owner: Principal, status: Status)
    ensures ExecuteAlone(book, CreateAccount(id, currency, owner)) ==
      if id in book.accounts then None
      else Some(Book(book.accounts[id := Account(currency, Active, 0, false, Option.Some(owner))],
                     book.transactions, book.journal, book.transfers))
    ensures ExecuteAlone(book, SetStatus(id, status)).Some? <==> id in book.accounts
    ensures id in book.accounts ==>
      var after, old' := ExecuteAlone(book, SetStatus(id, status)).value, book.accounts[id];
      && after == book.(accounts := after.accounts)
      && after.accounts == book.accounts[id :=
           Account(old'.currency, status, old'.balance, old'.isTreasury, old'.owner)]
  {
  }

  // ---------------------------------------------------------------- the transfers table mirrors the journal

  /** A transfer row says exactly what its ledger transaction's one credit and one debit say. */
  predicate TransferMirrored(book: Book, id: Id, t: TransferRow) {
    && id in book.transactions && book.transactions[id] == LedgerTx(TransferKind, t.currency, true)
    && Entry(id, t.source, t.currency, Credit, t.amount) in book.journal
    && Entry(id, t.destination, t.currency, Debit, t.amount) in book.journal
    && SideCount(book.journal, id, Debit) == 1 && SideCount(book.journal, id, Credit) == 1
  }

  predicate TransfersMirrored(book: Book) {
    forall id :: id in book.transfers ==> TransferMirrored(book, id, book.transfers[id])
  }

  lemma PairCounts(first: Entry, second: Entry, tx: Id)
    requires first.tx == second.tx == tx && first.direction == Credit && second.direction == Debit
    ensures SideCount([first, second], tx, Debit) == 1 && SideCount([first, second], tx, Credit) == 1
  {
    assert [first, second] == [first] + [second] && [] + [first] == [first] && [] + [second] == [second];
    forall side
      ensures SideCount([first, second], tx, side) == SideCount([first], tx, side) + SideCount([second], tx, side)
    {
      SideConcat([first], [second], tx, side);
    }
    assert [first][..0] == [] && [second][..0] == [];
  }

  lemma NewTransferMirrored(book: Book, id: Id, req: Request)
    requires req.Transfer? && RunBody(book, id, req).Ok? && JournalAllowed(book)
    ensures var after := RunBody(book, id, req).value;
      && id in after.transfers && TransferMirrored(after, id, after.transfers[id])
      && after.transfers[id] == TransferRow(req.source, req.destination, req.amount, book.accounts[req.source].currency)
  {
    var p, after := PostingOf(id, req), RunBody(book, id, req).value;
    var es := Unnest(p, book.accounts[p.accountIds[0]].currency);
    assert es == [es[0], es[1]] && es[0] in es && es[1] in es;
    PairCounts(es[0], es[1], id);
    forall e | e in book.journal ensures e.tx != id { assert EntryAllowed(book, e); }
    OtherEntries(book.journal, es, id);
  }

  /** Appending to the journal adds the new entries' counts, and none where they are absent. */
  lemma OtherEntries(journal: seq<Entry>, es: seq<Entry>, tx: Id)
    ensures (forall e :: e in journal ==> e.tx != tx) ==>
      forall side :: SideCount(journal + es, tx, side) == SideCount(es, tx, side)
    ensures (forall e :: e in es ==> e.tx != tx) ==>
      forall side :: SideCount(journal + es, tx, side) == SideCount(journal, tx, side)
  {
    forall side
      ensures (forall e :: e in journal ==> e.tx != tx) ==> SideCount(journal + es, tx, side) == SideCount(es, tx, side)
      ensures (forall e :: e in es ==> e.tx != tx) ==> SideCount(journal + es, tx, side) == SideCount(journal, tx, side)
    {
      SideConcat(journal, es, tx, side);
      if forall e :: e in journal ==> e.tx != tx { SideAbsent(journal, tx, side); }
      if forall e :: e in es ==> e.tx != tx { SideAbsent(es, tx, side); }
    }
  }

  lemma OldTransferMirrored(book: Book, id: Id, req: Request, earlier: Id)
    requires RunBody(book, id, req).Ok?
    requires earlier in book.transfers && TransferMirrored(book, earlier, book.transfers[earlier])
    ensures var after := RunBody(book, id, req).value;
      earlier in after.transfers && TransferMirrored(after, earlier, after.transfers[earlier])
  {
    var p := PostingOf(id, req);
    var es := Unnest(p, book.accounts[p.accountIds[0]].currency);
    UnnestFacts(book, p);
    OtherEntries(book.journal, es, earlier);
  }

  /** Exactly the transactions of kind transfer have a transfer row. */
  predicate KindsMatch(book: Book) {
    && book.transfers.Keys <= book.transactions.Keys
    && forall tx :: tx in book.transactions ==> (book.transactions[tx].kind == TransferKind <==> tx in book.transfers)
  }

  lemma OperationKeepsKinds(book: Book, op: Op)
    requires KindsMatch(book) && ExecuteAlone(book, op).Some?
    ensures KindsMatch(ExecuteAlone(book, op).value)
  {
  }

  /** Every operation keeps the transfers table a mirror of the journal. */
  lemma OperationKeepsTransfers(book: Book, op: Op)
    requires JournalAllowed(book) && TransfersMirrored(book) && ExecuteAlone(book, op).Some?
    ensures TransfersMirrored(ExecuteAlone(book, op).value)
  {
    var after := ExecuteAlone(book, op).value;
    if op.Commit? {
      if op.req.Transfer? { NewTransferMirrored(book, op.id, op.req); }
      forall id | id in after.transfers
        ensures TransferMirrored(after, id, after.transfers[id])
      {
        if id in book.transfers { OldTransferMirrored(book, op.id, op.req, id); }
      }
    } else {
      forall id | id in after.transfers
        ensures TransferMirrored(after, id, after.transfers[id])
      {
        assert TransferMirrored(book, id, book.transfers[id]);
      }
    }
  }

  // ---------------------------------------------------------------- a transaction only sees its locked rows

  /** The book as one transaction sees it: its locked rows, and whether its own id was already used. */
  function View(book: Book, rows: map<Id, Account>, id: Id): Book {
    Book(rows, map tx | tx in book.transactions && tx == id :: book.transactions[tx], [], map[])
  }

  /** Commit: the transaction's row versions and inserted rows become visible at once. */
  function Install(book: Book, written: Book): Book {
    Book(book.accounts + written.accounts, book.transactions + written.transactions,
         book.journal + written.journal, book.transfers + written.transfers)
  }

  /** The accounts a request touches, in the ascending order both code paths lock them. */
  function LockOrder(req: Request): (ids: seq<Id>) {
    var first, second := if req.Transfer? then req.source else req.account,
                         if req.Transfer? then req.destination else req.treasury;
    if first < second then [first, second] else [second, first]
  }

  /** `rows` holds exactly the current versions of the request's existing accounts. */
  predicate RowsCurrent(book: Book, rows: map<Id, Account>, req: Request) {
    && (forall id :: id in rows ==> id in book.accounts && book.accounts[id] == rows[id])
    && (forall id :: id in LockOrder(req) && id in book.accounts ==> id in rows)
  }

  lemma FoldLocal(accounts: map<Id, Account>, rows: map<Id, Account>, es: seq<Entry>)
    requires forall id :: id in rows ==> id in accounts && accounts[id] == rows[id]
    requires forall e :: e in es ==> e.account in rows
    ensures FoldEntries(accounts, es) == accounts + FoldEntries(rows, es)
  {
    FoldEntriesAt(accounts, es);
    FoldEntriesAt(rows, es);
    forall id | id in accounts && id !in rows
      ensures AccountSum(es, id) == 0
    {
      AccountSumAbsent(es, id);
    }
  }

  lemma ChecksLocal(book: Book, rows: map<Id, Account>, p: Posting)
    requires forall id :: id in rows ==> id in book.accounts && book.accounts[id] == rows[id]
    requires forall id :: id in p.accountIds && id in book.accounts ==> id in rows
    requires ValidEntryArrays(p)
    ensures AccountsAvailable(book.accounts, p) == AccountsAvailable(rows, p)
    ensures AccountsAvailable(rows, p) ==> OneCurrency(book.accounts, p) == OneCurrency(rows, p)
  {
  }

  lemma BalancesLocal(book: Book, rows: map<Id, Account>, p: Posting, es: seq<Entry>)
    requires forall id :: id in rows ==> id in book.accounts && book.accounts[id] == rows[id]
    requires forall id :: id in p.accountIds ==> id in rows
    requires forall e :: e in es ==> e.account in p.accountIds
    ensures FoldEntries(book.accounts, es) == book.accounts + FoldEntries(rows, es)
    ensures BalancesAllowed(FoldEntries(book.accounts, es), p) == BalancesAllowed(FoldEntries(rows, es), p)
  {
    FoldLocal(book.accounts, rows, es);
    FoldEntriesAt(rows, es);
  }

  lemma PostLedgerLocal(book: Book, rows: map<Id, Account>, p: Posting)
    requires forall id :: id in rows ==> id in book.accounts && book.accounts[id] == rows[id]
    requires forall id :: id in p.accountIds && id in book.accounts ==> id in rows
    ensures var local, whole := PostLedger(View(book, rows, p.id), p), PostLedger(book, p);
      && (local.Err? ==> whole == local)
      && (local.Ok? ==> whole == Ok(Install(book, local.value)))
  {
    if ValidEntryArrays(p) && ValidEntries(p) {
      ChecksLocal(book, rows, p);
      if AccountsAvailable(rows, p) && OneCurrency(rows, p) {
        var currency := book.accounts[p.accountIds[0]].currency;
        UnnestAccounts(p, currency);
        BalancesLocal(book, rows, p, Unnest(p, currency));
        InstallPosting(book, rows, p, currency);
      }
    }
  }

  /** Installing the view's result adds exactly the new rows. */
  lemma InstallPosting(book: Book, rows: map<Id, Account>, p: Posting, currency: Currency)
    requires SameLength(p)
    ensures var es, tx, view := Unnest(p, currency), LedgerTx(p.kind, currency, true), View(book, rows, p.id);
      Install(book, view.(accounts := FoldEntries(rows, es), transactions := view.transactions[p.id := tx],
                          journal := view.journal + es))
      == Book(book.accounts + FoldEntries(rows, es), book.transactions[p.id := tx], book.journal + es, book.transfers)
  {
    hide FoldEntries;
    var view := View(book, rows, p.id);
    assert view.journal + Unnest(p, currency) == Unnest(p, currency);
  }

  lemma UnnestAccounts(p: Posting, currency: Currency)
    requires SameLength(p)
    ensures forall e :: e in Unnest(p, currency) ==> e.account in p.accountIds
  {
  }

  lemma CheckLocal(book: Book, rows: map<Id, Account>, req: Request)
    requires RowsCurrent(book, rows, req) && req.Transfer?
    ensures CheckTransfer(book.accounts, req) == CheckTransfer(rows, req)
    ensures CheckTransfer(rows, req).None? ==> req.source in rows && rows[req.source] == book.accounts[req.source]
  {
    assert LockOrder(req)[0] in LockOrder(req) && LockOrder(req)[1] in LockOrder(req);
  }

  lemma TransferRowLocal(book: Book, local: Book, id: Id, row: TransferRow)
    requires local.transfers == map[]
    ensures Install(book, local) == Book(book.accounts + local.accounts, book.transactions + local.transactions,
                                         book.journal + local.journal, book.transfers)
    ensures Install(book, local.(transfers := map[id := row])) ==
      Install(book, local).(transfers := book.transfers[id := row])
  {
    assert book.transfers + map[] == book.transfers && book.transfers + map[id := row] == book.transfers[id := row];
  }

  lemma PostingStaysLocal(book: Book, rows: map<Id, Account>, id: Id, req: Request)
    requires RowsCurrent(book, rows, req)
    ensures var p := PostingOf(id, req);
      var local, whole := PostLedger(View(book, rows, id), p), PostLedger(book, p);
      && (local.Err? ==> whole == local)
      && (local.Ok? ==> whole == Ok(Install(book, local.value)) && local.value.transfers == map[])
  {
    var p := PostingOf(id, req);
    assert forall x :: x in p.accountIds <==> x in LockOrder(req);
    PostLedgerLocal(book, rows, p);
  }

  /** The body's outcome on the locked rows is its outcome on the whole committed book. */
  lemma BodyLocal(book: Book, rows: map<Id, Account>, id: Id, req: Request)
    requires RowsCurrent(book, rows, req)
    ensures var local, whole := RunBody(View(book, rows, id), id, req), RunBody(book, id, req);
      && (local.Err? ==> whole == local)
      && (local.Ok? ==> whole == Ok(Install(book, local.value)))
  {
    hide PostLedger, CheckTransfer, PostingOf, RowsCurrent, Install;
    PostingStaysLocal(book, rows, id, req);
    if req.Transfer? {
      CheckLocal(book, rows, req);
      var local := PostLedger(View(book, rows, id), PostingOf(id, req));
      if local.Ok? && CheckTransfer(rows, req).None? {
        var row := TransferRow(req.source, req.destination, req.amount, rows[req.source].currency);
        TransferRowLocal(book, local.value, id, row);
      }
    }
  }
}
