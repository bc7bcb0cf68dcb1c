/** `validatePosting`, the application's own check of a posting before the database sees it. */
module LedgerDomain {
  import opened Basics
  import opened Ledger

  datatype EntryInput = EntryInput(account: Id, amount: int, currency: Currency, direction: Direction)

  datatype PostingError = InvalidPosting | MixedCurrencyPosting | Unbalanced

  /** What `Money` and the direction type guarantee of each entry. */
  predicate Typed(entries: seq<EntryInput>) {
    forall e :: e in entries ==> 0 < e.amount <= MAX_BIGINT && e.direction != Unknown
  }

  predicate SameCurrency(entries: seq<EntryInput>) {
    forall e, f :: e in entries && f in entries ==> e.currency == f.currency
  }

  /** The rows these entries become. */
  function Rows(tx: Id, entries: seq<EntryInput>): seq<Entry> {
    seq(|entries|, i requires 0 <= i < |entries| =>
      Entry(tx, entries[i].account, entries[i].currency, entries[i].direction, entries[i].amount))
  }

  function Currencies(entries: seq<EntryInput>): set<Currency> {
    set e | e in entries :: e.currency
  }

  lemma OneCurrencyCounts(entries: seq<EntryInput>)
    requires |entries| > 0
    ensures |Currencies(entries)| == 1 <==> SameCurrency(entries)
  {
    var first := entries[0].currency;
    assert entries[0] in entries;
    SubsetCount({first}, Currencies(entries));
    if SameCurrency(entries) {
      assert Currencies(entries) == {first};
    } else {
      var e :| e in entries && e.currency != first;
      assert e.currency in Currencies(entries) && e.currency !in {first};
    }
  }

  lemma RowsOneMore(tx: Id, entries: seq<EntryInput>, i: nat, side: Direction)
    requires i < |entries|
    ensures SideTotal(Rows(tx, entries[..i + 1]), tx, side) ==
      SideTotal(Rows(tx, entries[..i]), tx, side) + if entries[i].direction == side then entries[i].amount else 0
  {
    var rows := Rows(tx, entries[..i + 1]);
    assert rows[..i] == Rows(tx, entries[..i]);
  }

  predicate HasDirection(entries: seq<EntryInput>, side: Direction) {
    exists e :: e in entries && e.direction == side
  }

  /** Positive entries with equal totals have both sides. */
  lemma BothSides(tx: Id, entries: seq<EntryInput>)
    requires Typed(entries) && |entries| > 0
    requires SideTotal(Rows(tx, entries), tx, Debit) == SideTotal(Rows(tx, entries), tx, Credit)
    ensures HasDirection(entries, Debit) && HasDirection(entries, Credit)
  {
    var rows, first := Rows(tx, entries), entries[0];
    forall e | e in rows
      ensures e.amount > 0
    {
      var i :| 0 <= i < |rows| && rows[i] == e;
      assert entries[i] in entries;
    }
    assert first in entries;
    SideHasEntry(rows, 0);
    forall side | side == Debit || side == Credit
      ensures HasDirection(entries, side)
    {
      SideTotalPositive(rows, tx, Debit);
      SideTotalPositive(rows, tx, Credit);
      SideCounted(rows, tx, side);
      var e :| e in rows && e.tx == tx && e.direction == side;
      var i :| 0 <= i < |rows| && rows[i] == e;
      assert entries[i] in entries;
    }
  }

  /** Refused for the first reason that holds; accepted exactly when no reason does. */
  method ValidatePosting(tx: Id, entries: seq<EntryInput>) returns (r: Option<PostingError>)
    requires Typed(entries)
    ensures r == if |entries| < 2 then Some(InvalidPosting)
                 else if !SameCurrency(entries) then Some(MixedCurrencyPosting)
                 else if SideTotal(Rows(tx, entries), tx, Debit) != SideTotal(Rows(tx, entries), tx, Credit)
                 then Some(Unbalanced)
                 else None
    ensures r == Some(InvalidPosting) <==> |entries| == 0 || |entries| == 1
    ensures r.None? ==> |entries| >= 2 && HasDirection(entries, Debit) && HasDirection(entries, Credit)
  {
    if |entries| < 2 { return Some(InvalidPosting); }
    OneCurrencyCounts(entries);
    if |Currencies(entries)| != 1 { return Some(MixedCurrencyPosting); }
    var debits, credits := 0, 0;
    for i := 0 to |entries|
      invariant debits == SideTotal(Rows(tx, entries[..i]), tx, Debit)
      invariant credits == SideTotal(Rows(tx, entries[..i]), tx, Credit)
    {
      assert entries[i] in entries;
      RowsOneMore(tx, entries, i, Debit);
      RowsOneMore(tx, entries, i, Credit);
      if entries[i].direction == Debit {
        debits := debits + entries[i].amount;
      } else {
        credits := credits + entries[i].amount;
      }
    }
    assert entries[..|entries|] == entries;
    if debits != credits { return Some(Unbalanced); }
    BothSides(tx, entries);
    return None;
  }

  /** The parallel arrays `postWith` sends for validated entries. */
  function Arrays(tx: Id, kind: Kind, entryIds: seq<Id>, entries: seq<EntryInput>): Posting {
    Posting(tx, kind, entryIds,
      seq(|entries|, i requires 0 <= i < |entries| => entries[i].account),
      seq(|entries|, i requires 0 <= i < |entries| => entries[i].direction),
      seq(|entries|, i requires 0 <= i < |entries| => entries[i].amount))
  }

  /**
   * Posted to accounts of its currency, a validated posting is only refused for what the rows say: a
   * used id or a balance.
   */
  lemma ValidatedIsPosted(book: Book, tx: Id, kind: Kind, entryIds: seq<Id>, entries: seq<EntryInput>)
    requires Typed(entries) && |entries| >= 2 && SameCurrency(entries) && |entryIds| == |entries|
    requires SideTotal(Rows(tx, entries), tx, Debit) == SideTotal(Rows(tx, entries), tx, Credit)
    requires forall e :: e in entries ==>
      && e.account in book.accounts && book.accounts[e.account].status == Active
      && book.accounts[e.account].currency == e.currency
    ensures var r := PostLedger(book, Arrays(tx, kind, entryIds, entries));
      && (r.Ok? || r.error == DuplicateTransaction || r.error == BalanceRejected)
      && (r.Ok? ==>
            && r.value.journal == book.journal + Rows(tx, entries)
            && r.value.transactions == book.transactions[tx := LedgerTx(kind, entries[0].currency, true)])
  {
    var p := Arrays(tx, kind, entryIds, entries);
    forall i | 0 <= i < |entries|
      ensures entries[i] in entries
    {
    }
    assert entries[0] in entries && p.accountIds[0] == entries[0].account;
    forall id | id in p.accountIds
      ensures id in book.accounts && book.accounts[id].status == Active
      ensures book.accounts[id].currency == entries[0].currency
    {
      var i :| 0 <= i < |entries| && p.accountIds[i] == id;
      assert entries[i] in entries;
    }
    assert Unnest(p, entries[0].currency) == Rows(tx, entries);
  }
}
