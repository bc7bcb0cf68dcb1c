/**
 * The ledger tables and the SQL that may be run on them: row triggers refuse what must never
 * change, and the deferred constraint triggers refuse, at COMMIT, every transaction left
 * unfinalized or unbalanced.  TRUNCATE is the one data statement that fires none of them, so the
 * committed ledger is append-only exactly as long as nobody truncates it.
 */
module LedgerTriggers {
  import opened Basics
  import opened Ledger

  /**
   * One statement on ledger_transactions or journal_entries.  TRUNCATE takes the entries alone, or
   * the transactions together with every table that references them.
   */
  datatype Statement =
    | InsertTransaction(id: Id, row: LedgerTx)
    | UpdateTransaction(id: Id, newId: Id, row: LedgerTx)
    | DeleteTransaction(id: Id)
    | InsertEntry(entry: Entry)
    | UpdateEntry(index: nat, entry: Entry)
    | DeleteEntry(index: nat)
    | TruncateEntries
    | TruncateLedger

  /** The one UPDATE `reject_ledger_transaction_mutation` lets through: finalizing, nothing else. */
  predicate FinalizesOnly(id: Id, newId: Id, before: LedgerTx, after: LedgerTx) {
    && !before.finalized && after.finalized
    && newId == id && after.kind == before.kind && after.currency == before.currency
  }

  /** Executes one statement; `None` is an exception, which aborts the whole transaction. */
  function Execute(book: Book, stmt: Statement): Option<Book> {
    match stmt
    case InsertTransaction(id, row) =>
      if id in book.transactions then None else Some(book.(transactions := book.transactions[id := row]))
    case UpdateTransaction(id, newId, row) =>
      if id !in book.transactions then Some(book)
      else if FinalizesOnly(id, newId, book.transactions[id], row)
      then Some(book.(transactions := book.transactions[id := row]))
      else None
    case DeleteTransaction(id) => if id in book.transactions then None else Some(book)
    case InsertEntry(e) =>
      if EntryAllowed(book, e) && !book.transactions[e.tx].finalized
      then Some(book.(journal := book.journal + [e])) else None
    case UpdateEntry(index, _) => if index < |book.journal| then None else Some(book)
    case DeleteEntry(index) => if index < |book.journal| then None else Some(book)
    case TruncateEntries => Some(book.(journal := []))
    case TruncateLedger => Some(book.(journal := [], transactions := map[], transfers := map[]))
  }

  /** A table with queued trigger events cannot be truncated. */
  predicate HasQueued(earlier: seq<Statement>, stmt: Statement) {
    || (stmt.TruncateEntries? && exists s :: s in earlier && s.InsertEntry?)
    || (stmt.TruncateLedger? && exists s :: s in earlier && (s.InsertEntry? || s.InsertTransaction?))
  }

  function ExecuteAll(book: Book, stmts: seq<Statement>): Option<Book> {
    if |stmts| == 0 then Some(book)
    else
      match ExecuteAll(book, stmts[..|stmts| - 1])
      case None => None
      case Some(mid) =>
        if HasQueued(stmts[..|stmts| - 1], stmts[|stmts| - 1]) then None else Execute(mid, stmts[|stmts| - 1])
  }

  /** The ledger transactions whose deferred triggers were queued by the statements. */
  function Queued(stmts: seq<Statement>): set<Id> {
    if |stmts| == 0 then {}
    else
      Queued(stmts[..|stmts| - 1]) +
      match stmts[|stmts| - 1]
      case InsertTransaction(id, _) => {id}
      case InsertEntry(e) => {e.tx}
      case _ => {}
  }

  /** COMMIT: every queued check must pass, or nothing of the transaction remains. */
  function CommitAll(book: Book, stmts: seq<Statement>): Option<Book> {
    match ExecuteAll(book, stmts)
    case None => None
    case Some(after) => if forall tx :: tx in Queued(stmts) ==> CommitCheck(after, tx) then Some(after) else None
  }

  /** The statement truncates rows that were there before the transaction. */
  predicate Truncates(before: Book, stmt: Statement) {
    || (stmt.TruncateEntries? && before.journal != [])
    || (stmt.TruncateLedger? && (before.journal != [] || before.transactions != map[] || before.transfers != map[]))
  }

  predicate TruncatesCommitted(before: Book, stmts: seq<Statement>) {
    exists i :: 0 <= i < |stmts| && Truncates(before, stmts[i])
  }

  /** What no row-level statement can undo, on the way to COMMIT. */
  predicate Preserved(before: Book, after: Book, queued: set<Id>) {
    && after.accounts == before.accounts && after.transfers == before.transfers
    && before.journal <= after.journal
    && after.transactions.Keys <= before.transactions.Keys + queued
    && (forall tx :: tx in before.transactions ==>
          tx in after.transactions && after.transactions[tx] == before.transactions[tx])
    && (forall e :: e in after.journal[|before.journal|..] ==> e.tx !in before.transactions && e.tx in queued)
    && JournalAllowed(after)
  }

  /** At every point of the transaction the committed ledger is still there, only appended to. */
  predicate KeptThroughout(before: Book, stmts: seq<Statement>) {
    forall i :: 0 <= i <= |stmts| ==> KeptAt(before, stmts, i)
  }

  predicate KeptAt(before: Book, stmts: seq<Statement>, i: nat)
    requires i <= |stmts|
  {
    && ExecuteAll(before, stmts[..i]).Some?
    && Preserved(before, ExecuteAll(before, stmts[..i]).value, Queued(stmts[..i]))
  }

  lemma {:induction false} PrefixExecutes(before: Book, stmts: seq<Statement>, i: nat)
    requires i <= |stmts| && ExecuteAll(before, stmts).Some?
    ensures ExecuteAll(before, stmts[..i]).Some?
  {
    if i < |stmts| {
      assert stmts[..|stmts| - 1][..i] == stmts[..i];
      PrefixExecutes(before, stmts[..|stmts| - 1], i);
    } else {
      assert stmts[..i] == stmts;
    }
  }

  lemma {:induction false} StatementsPreserve(before: Book, stmts: seq<Statement>)
    requires JournalAllowed(before) && AllCommitted(before) && ExecuteAll(before, stmts).Some?
    requires !TruncatesCommitted(before, stmts)
    ensures Preserved(before, ExecuteAll(before, stmts).value, Queued(stmts))
  {
    if |stmts| == 0 {
      assert before.journal[|before.journal|..] == [];
    } else {
      var prefix, stmt := stmts[..|stmts| - 1], stmts[|stmts| - 1];
      assert forall i :: 0 <= i < |prefix| ==> prefix[i] == stmts[i];
      StatementsPreserve(before, prefix);
      OneStatementPreserves(before, ExecuteAll(before, prefix).value, stmt, Queued(prefix));
    }
  }

  lemma OneStatementPreserves(before: Book, mid: Book, stmt: Statement, queued: set<Id>)
    requires AllCommitted(before) && Preserved(before, mid, queued) && Execute(mid, stmt).Some?
    requires !Truncates(before, stmt)
    ensures Preserved(before, Execute(mid, stmt).value,
      queued + match stmt case InsertTransaction(id, _) => {id} case InsertEntry(e) => {e.tx} case _ => {})
  {
    var after := Execute(mid, stmt).value;
    forall tx | tx in before.transactions
      ensures before.transactions[tx].finalized
    {
      assert CommitCheck(before, tx);
    }
    if stmt.InsertEntry? {
      assert after.journal[|before.journal|..] == mid.journal[|before.journal|..] + [stmt.entry];
    }
    forall e | e in after.journal
      ensures EntryAllowed(after, e)
    {
      if e in mid.journal { assert EntryAllowed(mid, e); }
    }
  }

  lemma TruncationLoses(before: Book, stmts: seq<Statement>, i: nat)
    requires i < |stmts| && ExecuteAll(before, stmts).Some? && Truncates(before, stmts[i])
    ensures !KeptAt(before, stmts, i + 1)
  {
    PrefixExecutes(before, stmts, i + 1);
    assert stmts[..i + 1][..i] == stmts[..i];
    var after := ExecuteAll(before, stmts[..i + 1]).value;
    assert after.journal == [];
    if stmts[i].TruncateLedger? && before.transactions != map[] {
      var tx :| tx in before.transactions;
      assert tx !in after.transactions;
    }
  }

  /**
   * Whatever data statements a committing transaction runs on the ledger tables: every earlier
   * transaction and entry stays untouched throughout, and nothing is added to an earlier
   * transaction, if and only if no committed row is truncated.  And then, at COMMIT, every ledger
   * transaction, old or new, is finalized and balanced.
   */
  lemma LedgerIsAppendOnly(before: Book, stmts: seq<Statement>)
    requires JournalAllowed(before) && AllCommitted(before) && CommitAll(before, stmts).Some?
    ensures KeptThroughout(before, stmts) <==> !TruncatesCommitted(before, stmts)
    ensures !TruncatesCommitted(before, stmts) ==>
      var after := CommitAll(before, stmts).value;
      Preserved(before, after, Queued(stmts)) && JournalAllowed(after) && AllCommitted(after)
  {
    if TruncatesCommitted(before, stmts) {
      var i :| 0 <= i < |stmts| && Truncates(before, stmts[i]);
      TruncationLoses(before, stmts, i);
    } else {
      forall i | 0 <= i <= |stmts|
        ensures KeptAt(before, stmts, i)
      {
        PrefixExecutes(before, stmts, i);
        assert forall j :: 0 <= j < i ==> stmts[..i][j] == stmts[j];
        StatementsPreserve(before, stmts[..i]);
      }
      StatementsPreserve(before, stmts);
      CommittedStaysChecked(before, stmts);
    }
  }

  lemma CommittedStaysChecked(before: Book, stmts: seq<Statement>)
    requires AllCommitted(before) && CommitAll(before, stmts).Some?
    requires Preserved(before, ExecuteAll(before, stmts).value, Queued(stmts))
    ensures AllCommitted(CommitAll(before, stmts).value)
  {
    var after := CommitAll(before, stmts).value;
    var appended := after.journal[|before.journal|..];
    assert after.journal == before.journal + appended;
    forall tx | tx in after.transactions
      ensures CommitCheck(after, tx)
    {
      if tx in before.transactions {
        assert CommitCheck(before, tx);
        SideConcat(before.journal, appended, tx, Debit);
        SideConcat(before.journal, appended, tx, Credit);
        SideAbsent(appended, tx, Debit);
        SideAbsent(appended, tx, Credit);
      }
    }
  }

  /** Truncating the journal commits, for any ledger with entries, and leaves transactions no check would pass. */
  lemma TruncateEscapesTriggers(book: Book)
    requires JournalAllowed(book) && book.journal != []
    ensures CommitAll(book, [TruncateEntries]) == Some(book.(journal := []))
    ensures !AllCommitted(book.(journal := []))
  {
    assert [TruncateEntries][..0] == [];
    assert ExecuteAll(book, []) == Some(book) && Queued([]) == {};
    assert EntryAllowed(book, book.journal[0]);
    assert !CommitCheck(book.(journal := []), book.journal[0].tx);
  }

  /**
   * Even inside its own transaction, a statement that truncates nothing leaves every row it finds as it
   * is, but for finalizing a transaction, and adds entries to unfinalized transactions only.
   */
  lemma StatementOnlyAppends(book: Book, stmt: Statement)
    requires Execute(book, stmt).Some? && !stmt.TruncateEntries? && !stmt.TruncateLedger?
    ensures var after := Execute(book, stmt).value;
      && (forall tx :: tx in book.transactions ==>
            tx in after.transactions
            && after.transactions[tx] == book.transactions[tx].(finalized := after.transactions[tx].finalized)
            && (book.transactions[tx].finalized ==> after.transactions[tx].finalized))
      && book.journal <= after.journal
      && (forall e :: e in after.journal[|book.journal|..] ==>
            EntryAllowed(book, e) && !book.transactions[e.tx].finalized)
      && after.accounts == book.accounts && after.transfers == book.transfers
  {
  }

  // ---------------------------------------------------------------- the posting function under the triggers

  /** The statements `post_ledger_transaction` runs on the ledger tables. */
  function PostingStatements(p: Posting, currency: Currency): seq<Statement>
    requires SameLength(p)
  {
    [InsertTransaction(p.id, LedgerTx(p.kind, currency, false))]
    + EntryStatements(Unnest(p, currency))
    + [UpdateTransaction(p.id, p.id, LedgerTx(p.kind, currency, true))]
  }

  function EntryStatements(es: seq<Entry>): seq<Statement> {
    seq(|es|, i requires 0 <= i < |es| => InsertEntry(es[i]))
  }

  lemma {:induction false} EntriesExecute(book: Book, head: seq<Statement>, es: seq<Entry>, tx: Id)
    requires ExecuteAll(book, head).Some? && tx in Queued(head) && Queued(head) == {tx}
    requires var start := ExecuteAll(book, head).value;
      forall e :: e in es ==> e.tx == tx && EntryAllowed(start, e) && !start.transactions[tx].finalized
    ensures ExecuteAll(book, head + EntryStatements(es)) ==
      Some(ExecuteAll(book, head).value.(journal := ExecuteAll(book, head).value.journal + es))
    ensures Queued(head + EntryStatements(es)) == {tx}
  {
    var start := ExecuteAll(book, head).value;
    if |es| == 0 {
      assert head + EntryStatements(es) == head && start.journal + es == start.journal;
    } else {
      var prefix, last, all := es[..|es| - 1], es[|es| - 1], head + EntryStatements(es);
      assert last in es;
      EntriesExecute(book, head, prefix, tx);
      assert all[..|all| - 1] == head + EntryStatements(prefix) && all[|all| - 1] == InsertEntry(last);
      assert start.journal + es == (start.journal + prefix) + [last];
    }
  }

  /** An accepted posting passes every trigger, and leaves exactly the ledger rows it promises. */
  lemma PostingPassesTriggers(book: Book, p: Posting)
    requires JournalAllowed(book) && PostLedger(book, p).Ok?
    ensures var after, currency := PostLedger(book, p).value, book.accounts[p.accountIds[0]].currency;
      CommitAll(book, PostingStatements(p, currency)) == Some(after.(accounts := book.accounts))
  {
    var after, currency := PostLedger(book, p).value, book.accounts[p.accountIds[0]].currency;
    var es, all := Unnest(p, currency), PostingStatements(p, currency);
    var head := [InsertTransaction(p.id, LedgerTx(p.kind, currency, false))];
    assert head[..0] == [];
    var start := book.(transactions := book.transactions[p.id := LedgerTx(p.kind, currency, false)]);
    assert ExecuteAll(book, head[..0]) == Some(book);
    assert ExecuteAll(book, head) == Some(start);
    assert Queued(head[..0]) == {};
    UnnestFacts(book, p);
    EntriesExecute(book, head, es, p.id);
    assert all[..|all| - 1] == head + EntryStatements(es);
    assert start.transactions[p.id := LedgerTx(p.kind, currency, true)] == after.transactions;
    forall e | e in book.journal ensures e.tx in book.transactions { assert EntryAllowed(book, e); }
    AcceptedPassesCommitCheck(book, p);
  }
}
