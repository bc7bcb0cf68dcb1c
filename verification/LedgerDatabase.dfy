/**
 * The ledger's tables as the SQL changes them, statement by statement, and the transaction around
 * the statements.  The posting function here checks by counting and updates balances with one
 * grouped UPDATE; its contract is `PostLedger`, which does neither.
 */
module LedgerDatabase {
  import opened Basics
  import opened Ledger
  import opened Requests
  import opened Idempotency

  datatype Failure =
    | Business(error: RequestError)
    | KeyNotHeld
    | DatabaseError(retryable: bool)

  /**
   * Where an infrastructure failure hits an attempt, if anywhere: before COMMIT, at a COMMIT the
   * server refuses, or after a COMMIT that took effect and whose answer never arrived.
   */
  datatype Fault =
    | NoFault
    | BeforeCommit(retryable: bool)
    | AtCommit(retryable: bool)
    | CommitLost(retryable: bool)

  /** Everything a posting transaction writes. */
  datatype Tables = Tables(book: Book, keys: Table, events: seq<Id>)

  /** One whole posting transaction: money, transfer row, event and key's answer, or nothing. */
  function CommitRequest(t: Tables, id: Id, req: Request, now: int): Result<Tables, Failure> {
    match RunBody(t.book, id, req)
    case Err(e) => Err(Business(e))
    case Ok(book) =>
      if req.key.None? then Ok(Tables(book, t.keys, t.events + [id]))
      else if !Unfinished(t.keys, req.key.value) then Err(KeyNotHeld)
      else Ok(Tables(book, CompleteRow(t.keys, req.key.value, PostedResponse(id), now), t.events + [id]))
  }

  /** Did the attempt's transaction take effect, whatever its caller heard? */
  predicate Applied(t: Tables, id: Id, req: Request, now: int, fault: Fault) {
    CommitRequest(t, id, req, now).Ok? && (fault.NoFault? || fault.CommitLost?)
  }

  /** The tables an attempt leaves. */
  function Left(t: Tables, id: Id, req: Request, now: int, fault: Fault): Tables {
    if Applied(t, id, req, now, fault) then CommitRequest(t, id, req, now).value else t
  }

  /** What the attempt's caller hears. */
  function Answer(t: Tables, id: Id, req: Request, now: int, fault: Fault): Result<(), Failure> {
    if fault.BeforeCommit? then Err(DatabaseError(fault.retryable))
    else
      match CommitRequest(t, id, req, now)
      case Err(e) => Err(e)
      case Ok(_) => if fault.NoFault? then Ok(()) else Err(DatabaseError(fault.retryable))
  }

  // ---------------------------------------------------------------- counting and grouping

  /** The posting function's count comparison finds exactly the postings naming a missing or inactive account. */
  lemma CountsFindUnavailable(accounts: map<Id, Account>, p: Posting, available: set<Id>, requested: set<Id>)
    requires requested == set id | id in p.accountIds
    requires available == set id | id in p.accountIds && id in accounts && accounts[id].status == Active
    ensures |available| == |requested| <==> AccountsAvailable(accounts, p)
  {
    SubsetCount(available, requested);
    if AccountsAvailable(accounts, p) {
      assert available == requested;
    } else {
      var id :| id in p.accountIds && !(id in accounts && accounts[id].status == Active);
      assert id in requested && id !in available;
    }
  }

  /** One distinct currency among the rows means all of them share it. */
  lemma CountFindsMixed(accounts: map<Id, Account>, p: Posting, currencies: set<Currency>)
    requires AccountsAvailable(accounts, p) && |p.accountIds| > 0
    requires currencies == set id | id in p.accountIds :: accounts[id].currency
    ensures |currencies| == 1 <==> OneCurrency(accounts, p)
  {
    var first := accounts[p.accountIds[0]].currency;
    assert p.accountIds[0] in p.accountIds && first in currencies;
    SubsetCount({first}, currencies);
    forall id | id in p.accountIds
      ensures accounts[id].currency in currencies
    {
    }
    if OneCurrency(accounts, p) {
      assert currencies == {first};
    } else {
      var id :| id in p.accountIds && accounts[id].currency != first;
      assert accounts[id].currency in currencies && accounts[id].currency !in {first};
    }
  }

  /** Adding one more row to the hash aggregate. */
  lemma GroupOneMore(es: seq<Entry>, e: Entry)
    ensures GroupDeltas(es + [e]) ==
      GroupDeltas(es)[e.account := (if e.account in GroupDeltas(es) then GroupDeltas(es)[e.account] else 0) + Signed(e)]
  {
    var all := es + [e];
    assert all[..|es|] == es;
    if e.account !in GroupDeltas(es) {
      AccountSumAbsent(es, e.account);
    }
    forall x | x in all
      ensures x in es || x == e
    {
    }
    assert e in all && forall x :: x in es ==> x in all;
    assert GroupDeltas(all).Keys == GroupDeltas(es).Keys + {e.account};
  }

  lemma SideOneMore(es: seq<Entry>, e: Entry, tx: Id, side: Direction)
    ensures SideTotal(es + [e], tx, side) ==
      SideTotal(es, tx, side) + if e.tx == tx && e.direction == side then e.amount else 0
  {
    assert (es + [e])[..|es|] == es;
  }

  /** What is left of `PostLedger` once its checks have passed. */
  lemma PostLedgerChecked(book: Book, p: Posting, currency: Currency)
    requires ValidEntryArrays(p) && ValidEntries(p)
    requires AccountsAvailable(book.accounts, p) && OneCurrency(book.accounts, p)
    requires currency == book.accounts[p.accountIds[0]].currency && p.id !in book.transactions
    requires SideTotal(Unnest(p, currency), p.id, Debit) == SideTotal(Unnest(p, currency), p.id, Credit)
    ensures var es := Unnest(p, currency);
      var after := ApplyDeltas(book.accounts, GroupDeltas(es));
      PostLedger(book, p) ==
        if BalancesAllowed(after, p)
        then Ok(Book(after, book.transactions[p.id := LedgerTx(p.kind, currency, true)],
                     book.journal + es, book.transfers))
        else Err(BalanceRejected)
  {
    GroupedUpdateIsFold(book.accounts, Unnest(p, currency));
  }

  class Database {
    var accounts: map<Id, Account>
    var transactions: map<Id, LedgerTx>
    var journal: seq<Entry>
    var transfers: map<Id, TransferRow>
    var keys: Table
    var events: seq<Id>
    var runs: nat

    function BookNow(): Book
      reads this
    {
      Book(accounts, transactions, journal, transfers)
    }

    function TablesNow(): Tables
      reads this
    {
      Tables(BookNow(), keys, events)
    }

    /** GROUP BY account_id over the rows, as a hash aggregate. */
    method GroupByAccount(es: seq<Entry>) returns (deltas: map<Id, int>)
      ensures deltas == GroupDeltas(es)
    {
      deltas := map[];
      for i := 0 to |es|
        invariant deltas == GroupDeltas(es[..i])
      {
        var e := es[i];
        deltas := deltas[e.account := (if e.account in deltas then deltas[e.account] else 0) + Signed(e)];
        GroupOneMore(es[..i], e);
        assert es[..i + 1] == es[..i] + [e];
      }
      assert es[..|es|] == es;
    }

    /** sum(amount) FILTER (WHERE direction = side) for both sides. */
    method SumSides(es: seq<Entry>, tx: Id) returns (debits: int, credits: int)
      requires forall e :: e in es ==> e.tx == tx
      ensures debits == SideTotal(es, tx, Debit) && credits == SideTotal(es, tx, Credit)
    {
      debits, credits := 0, 0;
      for i := 0 to |es|
        invariant debits == SideTotal(es[..i], tx, Debit) && credits == SideTotal(es[..i], tx, Credit)
      {
        var e := es[i];
        assert e in es;
        SideOneMore(es[..i], e, tx, Debit);
        SideOneMore(es[..i], e, tx, Credit);
        assert es[..i + 1] == es[..i] + [e];
        if e.direction == Debit { debits := debits + e.amount; }
        if e.direction == Credit { credits := credits + e.amount; }
      }
      assert es[..|es|] == es;
    }

    /** The checks before anything is written. */
    method CheckPosting(p: Posting) returns (r: Result<Currency, SqlError>)
      ensures r.Err? ==> PostLedger(BookNow(), p) == Err(r.error)
      ensures r.Ok? ==>
        && ValidEntryArrays(p) && ValidEntries(p) && AccountsAvailable(accounts, p) && OneCurrency(accounts, p)
        && r.value == accounts[p.accountIds[0]].currency
        && SideTotal(Unnest(p, r.value), p.id, Debit) == SideTotal(Unnest(p, r.value), p.id, Credit)
        && p.id !in transactions
    {
      var count := |p.entryIds|;
      if count < 2 || count != |p.accountIds| || count != |p.directions| || count != |p.amounts| {
        return Err(InvalidArrays);
      }
      if (exists a :: a in p.amounts && a <= 0) || Unknown in p.directions {
        return Err(InvalidEntry);
      }
      var requested := set id | id in p.accountIds;
      var available := set id | id in p.accountIds && id in accounts && accounts[id].status == Active;
      CountsFindUnavailable(accounts, p, available, requested);
      if |available| != |requested| {
        return Err(AccountUnavailable);
      }
      var currencies := set id | id in p.accountIds :: accounts[id].currency;
      CountFindsMixed(accounts, p, currencies);
      if |currencies| != 1 {
        return Err(MixedCurrency);
      }
      var currency := accounts[p.accountIds[0]].currency;
      var debits, credits := SumSides(Unnest(p, currency), p.id);
      if debits != credits {
        return Err(UnbalancedPosting);
      }
      if p.id in transactions {
        return Err(DuplicateTransaction);
      }
      return Ok(currency);
    }

    /** Header, entries, one grouped UPDATE of the balances, finalization. */
    method WritePosting(p: Posting, currency: Currency) returns (r: Result<LedgerTx, SqlError>)
      requires SameLength(p)
      modifies this`accounts, this`transactions, this`journal
      ensures accounts == ApplyDeltas(old(accounts), GroupDeltas(Unnest(p, currency)))
      ensures if BalancesAllowed(accounts, p)
              then r == Ok(LedgerTx(p.kind, currency, true))
                && transactions == old(transactions)[p.id := LedgerTx(p.kind, currency, true)]
                && journal == old(journal) + Unnest(p, currency)
              else r == Err(BalanceRejected)
    {
      transactions := transactions[p.id := LedgerTx(p.kind, currency, false)];
      journal := journal + Unnest(p, currency);
      var deltas := GroupByAccount(Unnest(p, currency));
      hide GroupDeltas, ApplyDeltas;
      accounts := ApplyDeltas(accounts, deltas);
      if exists id :: id in p.accountIds && id in accounts && !BalanceAllowed(accounts[id]) {
        return Err(BalanceRejected);
      }
      transactions := transactions[p.id := transactions[p.id].(finalized := true)];
      return Ok(transactions[p.id]);
    }

    /** `post_ledger_transaction`.  On an error the rows already written stay until the rollback. */
    method PostLedgerTransaction(p: Posting) returns (r: Result<LedgerTx, SqlError>)
      modifies this`accounts, this`transactions, this`journal
      ensures match PostLedger(old(BookNow()), p)
        case Err(e) => r == Err(e)
        case Ok(book) => r.Ok? && BookNow() == book && p.id in transactions && r.value == transactions[p.id]
    {
      var checked := CheckPosting(p);
      if checked.Err? { return Err(checked.error); }
      PostLedgerChecked(BookNow(), p, checked.value);
      hide PostLedger, BalancesAllowed, GroupDeltas, ApplyDeltas;
      r := WritePosting(p, checked.value);
    }

    /** SELECT ... WHERE id = ANY(ids) ORDER BY id FOR UPDATE: the existing rows, in id order. */
    method LockAccounts(first: Id, second: Id) returns (rows: map<Id, Account>)
      ensures rows == map id | id in {first, second} && id in accounts :: accounts[id]
    {
      rows := map id | id in {first, second} && id in accounts :: accounts[id];
    }

    /** `postTransfer` and the posting part of `post`: ledger, transfer row, event, key's answer, in this order. */
    method PostRequest(id: Id, req: Request, now: int) returns (r: Result<(), Failure>)
      requires req.Transfer? ==> CheckTransfer(accounts, req).None?
      modifies this`accounts, this`transactions, this`journal, this`transfers, this`keys, this`events
      ensures match CommitRequest(old(TablesNow()), id, req, now)
        case Err(e) => r == Err(e)
        case Ok(tables) => r.Ok? && TablesNow() == tables
    {
      var currency := if req.Transfer? then accounts[req.source].currency else 0;
      var posted := PostLedgerTransaction(PostingOf(id, req));
      if posted.Err? { return Err(Business(Rejected(posted.error))); }
      if req.Transfer? {
        transfers := transfers[id := TransferRow(req.source, req.destination, req.amount, currency)];
      }
      events := events + [id];
      if req.key.Some? {
        var rowCount := if Unfinished(keys, req.key.value) then 1 else 0;
        keys := CompleteRow(keys, req.key.value, PostedResponse(id), now);
        if rowCount != 1 { return Err(KeyNotHeld); }
      }
      return Ok(());
    }

    /** The transaction body: lock, check the locked rows, post. */
    method RunStatements(id: Id, req: Request, now: int) returns (r: Result<(), Failure>)
      modifies this`accounts, this`transactions, this`journal, this`transfers, this`keys, this`events
      ensures match CommitRequest(old(TablesNow()), id, req, now)
        case Err(e) => r == Err(e)
        case Ok(tables) => r.Ok? && TablesNow() == tables
    {
      if req.Transfer? {
        var rows := LockAccounts(req.source, req.destination);
        assert CheckTransfer(rows, req) == CheckTransfer(accounts, req);
        var rejection := CheckTransfer(rows, req);
        if rejection.Some? { return Err(Business(rejection.value)); }
      }
      r := PostRequest(id, req, now);
    }

    /** Other transactions commit: the tables become whatever they leave. */
    method OthersCommit(tables: Tables)
      modifies this`accounts, this`transactions, this`journal, this`transfers, this`keys, this`events
      ensures TablesNow() == tables
    {
      accounts, transactions := tables.book.accounts, tables.book.transactions;
      journal, transfers := tables.book.journal, tables.book.transfers;
      keys, events := tables.keys, tables.events;
    }

    /** BEGIN, the body, COMMIT; a failure before COMMIT takes effect rolls every table back. */
    method RunTransaction(id: Id, req: Request, now: int, fault: Fault) returns (r: Result<(), Failure>)
      modifies this
      ensures runs == old(runs) + 1
      ensures TablesNow() == Left(old(TablesNow()), id, req, now, fault)
      ensures r == Answer(old(TablesNow()), id, req, now, fault)
      ensures var sound := CommitRequest(old(TablesNow()), id, req, now);
        && (r.Ok? <==> fault.NoFault? && sound.Ok?)
        && (fault.BeforeCommit? || (sound.Ok? && !fault.NoFault?) ==> r == Err(DatabaseError(fault.retryable)))
        && (!fault.BeforeCommit? && sound.Err? ==> r == Err(sound.error))
    {
      hide CommitRequest;
      runs := runs + 1;
      if fault.BeforeCommit? { return Err(DatabaseError(fault.retryable)); }
      var accounts0, transactions0, journal0, transfers0 := accounts, transactions, journal, transfers;
      var keys0, events0 := keys, events;
      r := RunStatements(id, req, now);
      if r.Err? || fault.AtCommit? {
        accounts, transactions, journal, transfers := accounts0, transactions0, journal0, transfers0;
        keys, events := keys0, events0;
      }
      if r.Ok? { r := if fault.NoFault? then Ok(()) else Err(DatabaseError(fault.retryable)); }
    }
  }
}
