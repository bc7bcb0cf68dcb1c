/**
 * The double-entry book: accounts with a cached balance, finalized ledger transactions, and the
 * journal the cache must agree with.
 *
 * `PostLedger` says what posting an entry list does in the simplest way, one entry at a time.  The
 * database does it with one grouped UPDATE; `GroupedUpdateIsFold` proves the two equal, and the
 * rest of the module proves what every accepted posting keeps true of the book.
 */
module Ledger {
  import opened Basics

  type Id = nat
  type Principal = nat
  type Currency = nat

  const MAX_BIGINT: int := 9_223_372_036_854_775_807
  const MIN_BIGINT: int := -9_223_372_036_854_775_808

  datatype Status = Active | Frozen | Closed

  datatype Account = Account(
    currency: Currency,
    status: Status,
    balance: int,
    isTreasury: bool,
    owner: Option<Principal>)

  /** `Unknown` stands for every direction string that is neither 'debit' nor 'credit'. */
  datatype Direction = Debit | Credit | Unknown

  datatype Kind = FundingKind | TransferKind

  datatype Entry = Entry(tx: Id, account: Id, currency: Currency, direction: Direction, amount: int)

  datatype LedgerTx = LedgerTx(kind: Kind, currency: Currency, finalized: bool)

  datatype TransferRow = TransferRow(source: Id, destination: Id, amount: int, currency: Currency)

  datatype Book = Book(
    accounts: map<Id, Account>,
    transactions: map<Id, LedgerTx>,
    journal: seq<Entry>,
    transfers: map<Id, TransferRow>)

  /** The parallel arrays handed to `post_ledger_transaction`. */
  datatype Posting = Posting(
    id: Id,
    kind: Kind,
    entryIds: seq<Id>,
    accountIds: seq<Id>,
    directions: seq<Direction>,
    amounts: seq<int>)

  datatype SqlError =
    | InvalidArrays
    | InvalidEntry
    | AccountUnavailable
    | MixedCurrency
    | UnbalancedPosting
    | DuplicateTransaction
    | BalanceRejected

  // ---------------------------------------------------------------- sums over entries

  function Signed(e: Entry): int {
    if e.direction == Debit then e.amount else -e.amount
  }

  /** Journal balance of one account: debits minus credits. */
  function AccountSum(es: seq<Entry>, id: Id): int {
    if |es| == 0 then 0
    else AccountSum(es[..|es| - 1], id) + if es[|es| - 1].account == id then Signed(es[|es| - 1]) else 0
  }

  /** Total of one side of one ledger transaction. */
  function SideTotal(es: seq<Entry>, tx: Id, side: Direction): int {
    if |es| == 0 then 0
    else
      var e := es[|es| - 1];
      SideTotal(es[..|es| - 1], tx, side) + if e.tx == tx && e.direction == side then e.amount else 0
  }

  function SideCount(es: seq<Entry>, tx: Id, side: Direction): nat {
    if |es| == 0 then 0
    else
      var e := es[|es| - 1];
      SideCount(es[..|es| - 1], tx, side) + if e.tx == tx && e.direction == side then 1 else 0
  }

  function Net(es: seq<Entry>): int {
    if |es| == 0 then 0 else Net(es[..|es| - 1]) + Signed(es[|es| - 1])
  }

  lemma {:induction false} AccountSumConcat(a: seq<Entry>, b: seq<Entry>, id: Id)
    ensures AccountSum(a + b, id) == AccountSum(a, id) + AccountSum(b, id)
  {
    if |b| == 0 {
      assert a + b == a;
    } else {
      assert (a + b)[..|a + b| - 1] == a + b[..|b| - 1];
      AccountSumConcat(a, b[..|b| - 1], id);
    }
  }

  lemma {:induction false} SideConcat(a: seq<Entry>, b: seq<Entry>, tx: Id, side: Direction)
    ensures SideTotal(a + b, tx, side) == SideTotal(a, tx, side) + SideTotal(b, tx, side)
    ensures SideCount(a + b, tx, side) == SideCount(a, tx, side) + SideCount(b, tx, side)
  {
    if |b| == 0 {
      assert a + b == a;
    } else {
      assert (a + b)[..|a + b| - 1] == a + b[..|b| - 1];
      SideConcat(a, b[..|b| - 1], tx, side);
    }
  }

  lemma {:induction false} SideAbsent(es: seq<Entry>, tx: Id, side: Direction)
    requires forall e :: e in es ==> e.tx != tx
    ensures SideTotal(es, tx, side) == 0 && SideCount(es, tx, side) == 0
  {
    if |es| > 0 {
      SideAbsent(es[..|es| - 1], tx, side);
    }
  }

  lemma {:induction false} AccountSumAbsent(es: seq<Entry>, id: Id)
    requires forall e :: e in es ==> e.account != id
    ensures AccountSum(es, id) == 0
  {
    if |es| > 0 {
      AccountSumAbsent(es[..|es| - 1], id);
    }
  }

  // ---------------------------------------------------------------- applying entries to balances

  /** One entry moves one cached balance; an id with no accounts row is left alone. */
  function ApplyEntry(accounts: map<Id, Account>, e: Entry): map<Id, Account> {
    if e.account in accounts
    then accounts[e.account := accounts[e.account].(balance := accounts[e.account].balance + Signed(e))]
    else accounts
  }

  /** The simple form: entries applied one by one, in order. */
  function FoldEntries(accounts: map<Id, Account>, es: seq<Entry>): map<Id, Account> {
    if |es| == 0 then accounts
    else ApplyEntry(FoldEntries(accounts, es[..|es| - 1]), es[|es| - 1])
  }

  /** `SELECT account_id, sum(signed amount) ... GROUP BY account_id`. */
  function GroupDeltas(es: seq<Entry>): map<Id, int> {
    map e | e in es :: e.account := AccountSum(es, e.account)
  }

  /** `UPDATE accounts SET balance_minor = balance_minor + delta.amount FROM delta`. */
  function ApplyDeltas(accounts: map<Id, Account>, deltas: map<Id, int>): map<Id, Account> {
    map id | id in accounts ::
      if id in deltas then accounts[id].(balance := accounts[id].balance + deltas[id]) else accounts[id]
  }

  /** Folding entries moves each balance by that account's journal sum and touches nothing else. */
  lemma {:induction false} FoldEntriesAt(accounts: map<Id, Account>, es: seq<Entry>)
    ensures FoldEntries(accounts, es).Keys == accounts.Keys
    ensures forall id :: id in accounts ==>
      FoldEntries(accounts, es)[id] == accounts[id].(balance := accounts[id].balance + AccountSum(es, id))
  {
    if |es| > 0 {
      FoldEntriesAt(accounts, es[..|es| - 1]);
    }
  }

  /** An account's grouped delta is its signed sum; without a delta that sum is zero. */
  lemma DeltaAt(es: seq<Entry>, id: Id)
    ensures AccountSum(es, id) == if id in GroupDeltas(es) then GroupDeltas(es)[id] else 0
  {
    if id !in GroupDeltas(es) {
      assert forall e :: e in es ==> e.account in GroupDeltas(es);
      AccountSumAbsent(es, id);
    }
  }

  /**
   * The grouped UPDATE equals folding the entries one by one, for any entry list: repeated
   * accounts, unknown accounts and unbalanced lists included.
   */
  lemma GroupedUpdateIsFold(accounts: map<Id, Account>, es: seq<Entry>)
    ensures ApplyDeltas(accounts, GroupDeltas(es)) == FoldEntries(accounts, es)
  {
    FoldEntriesAt(accounts, es);
    hide FoldEntries, GroupDeltas, AccountSum;
    forall id | id in accounts
      ensures ApplyDeltas(accounts, GroupDeltas(es))[id] == FoldEntries(accounts, es)[id]
    {
      DeltaAt(es, id);
    }
  }

  // ---------------------------------------------------------------- totals over a set of accounts

  function Share(a: Account, c: Currency): int {
    if a.currency == c then a.balance else 0
  }

  /** Sum of the cached balances held in currency `c` by the accounts in `ids`. */
  ghost function CurrencyTotal(ids: set<Id>, accounts: map<Id, Account>, c: Currency): int
    requires ids <= accounts.Keys
  {
    if ids == {} then 0
    else var id :| id in ids; Share(accounts[id], c) + CurrencyTotal(ids - {id}, accounts, c)
  }

  lemma {:induction false} CurrencyTotalWithout(ids: set<Id>, accounts: map<Id, Account>, c: Currency, x: Id)
    requires ids <= accounts.Keys && x in ids
    ensures CurrencyTotal(ids, accounts, c) == Share(accounts[x], c) + CurrencyTotal(ids - {x}, accounts, c)
  {
    var id :| id in ids &&
      CurrencyTotal(ids, accounts, c) == Share(accounts[id], c) + CurrencyTotal(ids - {id}, accounts, c);
    if id != x {
      CurrencyTotalWithout(ids - {id}, accounts, c, x);
      CurrencyTotalWithout(ids - {x}, accounts, c, id);
      assert ids - {id} - {x} == ids - {x} - {id};
    }
  }

  lemma {:induction false} CurrencyTotalFrame(ids: set<Id>, a: map<Id, Account>, b: map<Id, Account>, c: Currency)
    requires ids <= a.Keys && ids <= b.Keys
    requires forall id :: id in ids ==> Share(a[id], c) == Share(b[id], c)
    ensures CurrencyTotal(ids, a, c) == CurrencyTotal(ids, b, c)
  {
    if ids != {} {
      var id :| id in ids;
      CurrencyTotalWithout(ids, a, c, id);
      CurrencyTotalWithout(ids, b, c, id);
      CurrencyTotalFrame(ids - {id}, a, b, c);
    }
  }

  ghost function BookTotal(accounts: map<Id, Account>, c: Currency): int {
    CurrencyTotal(accounts.Keys, accounts, c)
  }

  lemma ReplaceAccount(accounts: map<Id, Account>, id: Id, a: Account, c: Currency)
    requires id in accounts
    ensures BookTotal(accounts[id := a], c) == BookTotal(accounts, c) - Share(accounts[id], c) + Share(a, c)
  {
    var after := accounts[id := a];
    assert after.Keys == accounts.Keys;
    CurrencyTotalWithout(accounts.Keys, accounts, c, id);
    CurrencyTotalWithout(after.Keys, after, c, id);
    CurrencyTotalFrame(accounts.Keys - {id}, accounts, after, c);
  }

  lemma AddAccount(accounts: map<Id, Account>, id: Id, a: Account, c: Currency)
    requires id !in accounts
    ensures BookTotal(accounts[id := a], c) == BookTotal(accounts, c) + Share(a, c)
  {
    var after := accounts[id := a];
    CurrencyTotalWithout(after.Keys, after, c, id);
    assert after.Keys - {id} == accounts.Keys;
    CurrencyTotalFrame(accounts.Keys, accounts, after, c);
  }

  /** Folding entries that all sit in currency `cur` moves that currency's total by their net, no other. */
  lemma {:induction false} FoldMovesTotal(accounts: map<Id, Account>, es: seq<Entry>, cur: Currency, c: Currency)
    requires forall e :: e in es ==> e.account in accounts && accounts[e.account].currency == cur
    ensures BookTotal(FoldEntries(accounts, es), c) == BookTotal(accounts, c) + if c == cur then Net(es) else 0
  {
    if |es| > 0 {
      var prefix, e := es[..|es| - 1], es[|es| - 1];
      FoldMovesTotal(accounts, prefix, cur, c);
      FoldEntriesAt(accounts, prefix);
      var mid := FoldEntries(accounts, prefix);
      assert e in es;
      ReplaceAccount(mid, e.account, mid[e.account].(balance := mid[e.account].balance + Signed(e)), c);
    }
  }

  // ---------------------------------------------------------------- posting

  function SameLength(p: Posting): bool {
    |p.entryIds| == |p.accountIds| == |p.directions| == |p.amounts|
  }

  /** `unnest` of the parallel arrays into journal rows of transaction `p.id`. */
  function Unnest(p: Posting, currency: Currency): (es: seq<Entry>)
    requires SameLength(p)
  {
    seq(|p.accountIds|, i requires 0 <= i < |p.accountIds| =>
      Entry(p.id, p.accountIds[i], currency, p.directions[i], p.amounts[i]))
  }

  predicate ValidEntryArrays(p: Posting) {
    |p.entryIds| >= 2 && SameLength(p)
  }

  predicate ValidEntries(p: Posting) {
    (forall a :: a in p.amounts ==> a > 0) && Unknown !in p.directions
  }

  /** Every account named by the posting has a row and is active. */
  predicate AccountsAvailable(accounts: map<Id, Account>, p: Posting) {
    forall id :: id in p.accountIds ==> id in accounts && accounts[id].status == Active
  }

  predicate OneCurrency(accounts: map<Id, Account>, p: Posting)
    requires AccountsAvailable(accounts, p) && |p.accountIds| > 0
  {
    forall id :: id in p.accountIds ==> accounts[id].currency == accounts[p.accountIds[0]].currency
  }

  /** The bigint column range and the table's CHECK (is_treasury OR balance_minor >= 0). */
  predicate BalanceAllowed(a: Account) {
    MIN_BIGINT <= a.balance <= MAX_BIGINT && (a.isTreasury || a.balance >= 0)
  }

  predicate BalancesAllowed(accounts: map<Id, Account>, p: Posting) {
    forall id :: id in p.accountIds && id in accounts ==> BalanceAllowed(accounts[id])
  }

  /** What one posting does to the book, or why it is refused; a refusal leaves no trace. */
  function PostLedger(book: Book, p: Posting): Result<Book, SqlError> {
    if !ValidEntryArrays(p) then Err(InvalidArrays)
    else if !ValidEntries(p) then Err(InvalidEntry)
    else if !AccountsAvailable(book.accounts, p) then Err(AccountUnavailable)
    else if !OneCurrency(book.accounts, p) then Err(MixedCurrency)
    else
      var currency := book.accounts[p.accountIds[0]].currency;
      var es := Unnest(p, currency);
      if SideTotal(es, p.id, Debit) != SideTotal(es, p.id, Credit) then Err(UnbalancedPosting)
      else if p.id in book.transactions then Err(DuplicateTransaction)
      else
        var accounts := FoldEntries(book.accounts, es);
        if !BalancesAllowed(accounts, p) then Err(BalanceRejected)
        else Ok(book.(
          accounts := accounts,
          transactions := book.transactions[p.id := LedgerTx(p.kind, currency, true)],
          journal := book.journal + es))
  }

  // ---------------------------------------------------------------- what every posting keeps

  /** The deferred constraint trigger's verdict on one ledger transaction. */
  predicate CommitCheck(book: Book, tx: Id) {
    && tx in book.transactions
    && book.transactions[tx].finalized
    && SideCount(book.journal, tx, Debit) > 0
    && SideCount(book.journal, tx, Credit) > 0
    && SideTotal(book.journal, tx, Debit) == SideTotal(book.journal, tx, Credit)
  }

  /** The composite foreign keys and column checks of one journal row. */
  predicate EntryAllowed(book: Book, e: Entry) {
    && e.account in book.accounts && book.accounts[e.account].currency == e.currency
    && e.tx in book.transactions && book.transactions[e.tx].currency == e.currency
    && e.amount > 0 && e.direction != Unknown
  }

  predicate JournalAllowed(book: Book) {
    forall e :: e in book.journal ==> EntryAllowed(book, e)
  }

  predicate CacheAgrees(book: Book) {
    forall id :: id in book.accounts ==> book.accounts[id].balance == AccountSum(book.journal, id)
  }

  ghost predicate Conserved(book: Book) {
    forall c :: BookTotal(book.accounts, c) == 0
  }

  predicate AllBalancesAllowed(book: Book) {
    forall id :: id in book.accounts ==> BalanceAllowed(book.accounts[id])
  }

  predicate AllCommitted(book: Book) {
    forall tx :: tx in book.transactions ==> CommitCheck(book, tx)
  }

  ghost predicate BookInv(book: Book) {
    JournalAllowed(book) && CacheAgrees(book) && Conserved(book) && AllBalancesAllowed(book) && AllCommitted(book)
  }

  lemma {:induction false} NetOfOneTransaction(es: seq<Entry>, tx: Id)
    requires forall e :: e in es ==> e.tx == tx && e.direction != Unknown
    ensures Net(es) == SideTotal(es, tx, Debit) - SideTotal(es, tx, Credit)
  {
    if |es| > 0 {
      var e := es[|es| - 1];
      assert e in es;
      NetOfOneTransaction(es[..|es| - 1], tx);
    }
  }

  /** With positive amounts, a side is empty exactly when its total is zero. */
  lemma {:induction false} SideTotalPositive(es: seq<Entry>, tx: Id, side: Direction)
    requires forall e :: e in es ==> e.amount > 0
    ensures SideTotal(es, tx, side) >= 0
    ensures SideCount(es, tx, side) > 0 <==> SideTotal(es, tx, side) > 0
  {
    if |es| > 0 {
      assert es[|es| - 1] in es;
      SideTotalPositive(es[..|es| - 1], tx, side);
    }
  }

  /**
   * An accepted posting always passes the commit-time check: positive amounts, at least two
   * entries and equal totals leave it with a debit and a credit, finalized and balanced.
   */
  lemma AcceptedPassesCommitCheck(book: Book, p: Posting)
    requires PostLedger(book, p).Ok?
    requires forall e :: e in book.journal ==> e.tx in book.transactions
    ensures CommitCheck(PostLedger(book, p).value, p.id)
  {
    var es := Unnest(p, book.accounts[p.accountIds[0]].currency);
    SideConcat(book.journal, es, p.id, Debit);
    SideConcat(book.journal, es, p.id, Credit);
    SideAbsent(book.journal, p.id, Debit);
    SideAbsent(book.journal, p.id, Credit);
    forall e | e in es
      ensures e.amount > 0
    {
      var i :| 0 <= i < |es| && es[i] == e;
      assert p.amounts[i] in p.amounts;
    }
    SideTotalPositive(es, p.id, Debit);
    SideTotalPositive(es, p.id, Credit);
    var first := es[0];
    assert p.directions[0] in p.directions;
    SideHasEntry(es, 0);
  }

  lemma {:induction false} SideHasEntry(es: seq<Entry>, i: nat)
    requires i < |es|
    ensures SideCount(es, es[i].tx, es[i].direction) > 0
  {
    if i < |es| - 1 {
      SideHasEntry(es[..|es| - 1], i);
    }
  }

  /** The transaction has an entry on this side. */
  predicate HasSide(journal: seq<Entry>, tx: Id, side: Direction) {
    exists e :: e in journal && e.tx == tx && e.direction == side
  }

  lemma {:induction false} SideCounted(journal: seq<Entry>, tx: Id, side: Direction)
    ensures SideCount(journal, tx, side) > 0 <==> HasSide(journal, tx, side)
  {
    if |journal| > 0 {
      var prefix, last := journal[..|journal| - 1], journal[|journal| - 1];
      SideCounted(prefix, tx, side);
      assert journal == prefix + [last] && last in journal;
      if HasSide(prefix, tx, side) {
        var e :| e in prefix && e.tx == tx && e.direction == side;
        assert e in journal;
      }
    }
  }

  /** What the commit check lets through: finalized transactions with a debit, a credit and equal totals. */
  lemma CommitCheckIff(book: Book, tx: Id)
    ensures CommitCheck(book, tx) <==>
      && tx in book.transactions && book.transactions[tx].finalized
      && HasSide(book.journal, tx, Debit) && HasSide(book.journal, tx, Credit)
      && SideTotal(book.journal, tx, Debit) == SideTotal(book.journal, tx, Credit)
  {
    SideCounted(book.journal, tx, Debit);
    SideCounted(book.journal, tx, Credit);
  }

  predicate EachPositive(p: Posting)
    requires SameLength(p)
  {
    forall i :: 0 <= i < |p.amounts| ==> p.amounts[i] > 0 && p.directions[i] != Unknown
  }

  predicate EachActive(a: map<Id, Account>, p: Posting) {
    forall i :: 0 <= i < |p.accountIds| ==> p.accountIds[i] in a && a[p.accountIds[i]].status == Active
  }

  predicate AllOneCurrency(a: map<Id, Account>, p: Posting)
    requires EachActive(a, p)
  {
    forall i, j :: 0 <= i < j < |p.accountIds| ==> a[p.accountIds[i]].currency == a[p.accountIds[j]].currency
  }

  /** Every balance stays in range, and a customer's at zero or above. */
  predicate EachInRange(a: map<Id, Account>, p: Posting, es: seq<Entry>)
    requires EachActive(a, p)
  {
    forall i :: 0 <= i < |p.accountIds| ==>
      var after := a[p.accountIds[i]].balance + AccountSum(es, p.accountIds[i]);
      MIN_BIGINT <= after <= MAX_BIGINT && (a[p.accountIds[i]].isTreasury || after >= 0)
  }

  /**
   * Why a posting is refused: the first of its conditions that fails names the error, and with none
   * failing it is accepted.
   */
  lemma PostLedgerRefusals(book: Book, p: Posting)
    ensures var r, a, n := PostLedger(book, p), book.accounts, |p.accountIds|;
      var arrays := |p.entryIds| >= 2 && |p.entryIds| == n && |p.directions| == n && |p.amounts| == n;
      var valid := arrays && EachPositive(p);
      var available := valid && EachActive(a, p);
      var same := available && AllOneCurrency(a, p);
      var balanced := same && Net(Unnest(p, a[p.accountIds[0]].currency)) == 0;
      var unused := balanced && p.id !in book.transactions;
      var legal := unused && EachInRange(a, p, Unnest(p, a[p.accountIds[0]].currency));
      && (r == Err(InvalidArrays) <==> !arrays)
      && (r == Err(InvalidEntry) <==> arrays && !valid)
      && (r == Err(AccountUnavailable) <==> valid && !available)
      && (r == Err(MixedCurrency) <==> available && !same)
      && (r == Err(UnbalancedPosting) <==> same && !balanced)
      && (r == Err(DuplicateTransaction) <==> balanced && !unused)
      && (r == Err(BalanceRejected) <==> unused && !legal)
      && (r.Ok? <==> legal)
  {
    hide FoldEntries, Net, SideTotal, AccountSum, Unnest, ValidEntries, AccountsAvailable, OneCurrency, BalancesAllowed;
    hide EachPositive, AllOneCurrency, EachInRange;
    var a := book.accounts;
    if ValidEntryArrays(p) {
      EntriesByIndex(p);
      if ValidEntries(p) {
        AccountsByIndex(a, p);
        if AccountsAvailable(a, p) && OneCurrency(a, p) {
          EntriesBalance(p, a[p.accountIds[0]].currency);
          BalancesByIndex(a, p, Unnest(p, a[p.accountIds[0]].currency));
        }
      }
    }
  }

  lemma EntriesBalance(p: Posting, currency: Currency)
    requires ValidEntryArrays(p) && ValidEntries(p)
    ensures var es := Unnest(p, currency);
      Net(es) == 0 <==> SideTotal(es, p.id, Debit) == SideTotal(es, p.id, Credit)
  {
    var es := Unnest(p, currency);
    forall e | e in es
      ensures e.tx == p.id && e.direction != Unknown
    {
      var i :| 0 <= i < |es| && es[i] == e;
      assert p.directions[i] in p.directions;
    }
    NetOfOneTransaction(es, p.id);
  }

  lemma EntriesByIndex(p: Posting)
    requires ValidEntryArrays(p)
    ensures ValidEntries(p) <==> EachPositive(p)
  {
    if ValidEntries(p) {
      forall i | 0 <= i < |p.amounts|
        ensures p.amounts[i] > 0 && p.directions[i] != Unknown
      {
        assert p.amounts[i] in p.amounts && p.directions[i] in p.directions;
      }
    }
  }

  lemma AccountsByIndex(a: map<Id, Account>, p: Posting)
    requires ValidEntryArrays(p)
    ensures AccountsAvailable(a, p) <==> EachActive(a, p)
    ensures AccountsAvailable(a, p) ==> (OneCurrency(a, p) <==> AllOneCurrency(a, p))
  {
    forall i | 0 <= i < |p.accountIds| ensures p.accountIds[i] in p.accountIds {}
    if AccountsAvailable(a, p) && !OneCurrency(a, p) {
      var id :| id in p.accountIds && a[id].currency != a[p.accountIds[0]].currency;
      var j :| 0 <= j < |p.accountIds| && p.accountIds[j] == id;
      assert 0 < j;
    }
  }

  lemma BalancesByIndex(a: map<Id, Account>, p: Posting, es: seq<Entry>)
    requires AccountsAvailable(a, p) && EachActive(a, p)
    ensures BalancesAllowed(FoldEntries(a, es), p) <==> EachInRange(a, p, es)
  {
    FoldEntriesAt(a, es);
    hide FoldEntries, AccountSum;
    forall i | 0 <= i < |p.accountIds| ensures p.accountIds[i] in p.accountIds {}
  }

  lemma UnnestFacts(book: Book, p: Posting)
    requires PostLedger(book, p).Ok?
    ensures var currency := book.accounts[p.accountIds[0]].currency;
      forall e :: e in Unnest(p, currency) ==>
        && e.tx == p.id && e.amount > 0 && e.direction != Unknown && e.currency == currency
        && e.account in p.accountIds && e.account in book.accounts && book.accounts[e.account].currency == currency
  {
    var currency := book.accounts[p.accountIds[0]].currency;
    var es := Unnest(p, currency);
    forall e | e in es
      ensures && e.tx == p.id && e.amount > 0 && e.direction != Unknown && e.currency == currency
              && e.account in p.accountIds && e.account in book.accounts
              && book.accounts[e.account].currency == currency
    {
      var i :| 0 <= i < |es| && es[i] == e;
      assert p.amounts[i] in p.amounts && p.directions[i] in p.directions && p.accountIds[i] in p.accountIds;
    }
  }

  lemma PostLedgerConserves(book: Book, p: Posting)
    requires PostLedger(book, p).Ok? && Conserved(book)
    ensures Conserved(PostLedger(book, p).value)
  {
    var currency := book.accounts[p.accountIds[0]].currency;
    var es := Unnest(p, currency);
    UnnestFacts(book, p);
    NetOfOneTransaction(es, p.id);
    forall c
      ensures BookTotal(PostLedger(book, p).value.accounts, c) == 0
    {
      FoldMovesTotal(book.accounts, es, currency, c);
    }
  }

  lemma PostLedgerKeepsBalances(book: Book, p: Posting)
    requires PostLedger(book, p).Ok? && CacheAgrees(book) && AllBalancesAllowed(book)
    ensures CacheAgrees(PostLedger(book, p).value) && AllBalancesAllowed(PostLedger(book, p).value)
  {
    var after := PostLedger(book, p).value;
    var es := Unnest(p, book.accounts[p.accountIds[0]].currency);
    UnnestFacts(book, p);
    FoldEntriesAt(book.accounts, es);
    forall id | id in after.accounts
      ensures after.accounts[id].balance == AccountSum(after.journal, id)
      ensures BalanceAllowed(after.accounts[id])
    {
      AccountSumConcat(book.journal, es, id);
      if id !in p.accountIds {
        AccountSumAbsent(es, id);
      }
    }
  }

  lemma PostLedgerKeepsCommitted(book: Book, p: Posting)
    requires PostLedger(book, p).Ok? && JournalAllowed(book) && AllCommitted(book)
    ensures AllCommitted(PostLedger(book, p).value)
  {
    var after := PostLedger(book, p).value;
    var es := Unnest(p, book.accounts[p.accountIds[0]].currency);
    UnnestFacts(book, p);
    forall e | e in book.journal ensures e.tx in book.transactions { assert EntryAllowed(book, e); }
    AcceptedPassesCommitCheck(book, p);
    forall tx | tx in after.transactions && tx != p.id
      ensures CommitCheck(after, tx)
    {
      assert CommitCheck(book, tx);
      SideConcat(book.journal, es, tx, Debit);
      SideConcat(book.journal, es, tx, Credit);
      SideAbsent(es, tx, Debit);
      SideAbsent(es, tx, Credit);
    }
  }

  lemma PostLedgerKeepsJournal(book: Book, p: Posting)
    requires PostLedger(book, p).Ok? && JournalAllowed(book)
    ensures JournalAllowed(PostLedger(book, p).value)
  {
    var after := PostLedger(book, p).value;
    UnnestFacts(book, p);
    FoldEntriesAt(book.accounts, Unnest(p, book.accounts[p.accountIds[0]].currency));
    forall e | e in after.journal
      ensures EntryAllowed(after, e)
    {
      if e in book.journal {
        assert EntryAllowed(book, e);
      }
    }
  }

  /** Every accepted posting keeps the whole book invariant. */
  lemma PostLedgerKeepsBook(book: Book, p: Posting)
    requires PostLedger(book, p).Ok? && BookInv(book)
    ensures BookInv(PostLedger(book, p).value)
  {
    PostLedgerConserves(book, p);
    PostLedgerKeepsBalances(book, p);
    PostLedgerKeepsCommitted(book, p);
    PostLedgerKeepsJournal(book, p);
  }
}
