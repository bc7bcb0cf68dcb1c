/**
 * Reconciliation recomputes every balance from the journal and reports each disagreement.  The
 * query joins accounts with journal sums grouped by (account, currency): `ReportIsExact` is its
 * verdict on any tables, and `OneIssuePerAccount` what that comes to when the entries of one account
 * share one currency, as the journal's composite foreign key makes sure they do.
 */
module Reconciliation {
  import opened Basics
  import opened Ledger

  datatype IssueType = Unexpected | Missing | Mismatched

  datatype Issue = Issue(account: Id, cached: Option<int>, computed: int, kind: IssueType)

  /** One row of the FULL OUTER JOIN. */
  datatype Row = Row(account: Id, cached: Option<int>, computed: int, unexpected: bool, noJournalSupport: bool)

  datatype Report = Report(accountsChecked: nat, issues: seq<Issue>, ok: bool)

  // ---------------------------------------------------------------- the query

  /** sum(...) over one (account_id, currency) group. */
  function GroupSum(journal: seq<Entry>, id: Id, c: Currency): int {
    if |journal| == 0 then 0
    else
      var e := journal[|journal| - 1];
      GroupSum(journal[..|journal| - 1], id, c) + if e.account == id && e.currency == c then Signed(e) else 0
  }

  /** The currencies of an account's entries, each once: its groups. */
  function Groups(journal: seq<Entry>, id: Id): seq<Currency> {
    if |journal| == 0 then []
    else
      var e, groups := journal[|journal| - 1], Groups(journal[..|journal| - 1], id);
      if e.account == id && e.currency !in groups then groups + [e.currency] else groups
  }

  function CachedBalance(accounts: map<Id, Account>, id: Id): Option<int> {
    if id in accounts then Some(accounts[id].balance) else None
  }

  /** The join's rows for one account id: one per group, or one bare row for an account without entries. */
  function RowsOf(accounts: map<Id, Account>, journal: seq<Entry>, id: Id): seq<Row> {
    var groups := Groups(journal, id);
    if |groups| == 0 then (if id in accounts then [Row(id, CachedBalance(accounts, id), 0, false, true)] else [])
    else
      seq(|groups|, i requires 0 <= i < |groups| =>
        Row(id, CachedBalance(accounts, id), GroupSum(journal, id, groups[i]), id !in accounts, false))
  }

  function KnownIds(accounts: map<Id, Account>, journal: seq<Entry>): set<Id> {
    accounts.Keys + set e | e in journal :: e.account
  }

  predicate IsLeast(least: Id, ids: set<Id>) {
    least in ids && forall x :: x in ids ==> least <= x
  }

  function Least(ids: set<Id>): (least: Id)
    requires ids != {}
    ensures IsLeast(least, ids)
  {
    LeastExists(ids);
    var least :| least in ids && IsLeast(least, ids);
    least
  }

  lemma LeastExists(ids: set<Id>)
    requires ids != {}
    ensures exists least :: IsLeast(least, ids)
  {
    var below := (x: Id, y: Id) => x <= y;
    HasMinimum(ids, below);
    var least :| IsMinimum(least, ids, below);
    assert forall x :: x in ids ==> below(least, x);
    assert IsLeast(least, ids);
  }

  /** The joined rows of the given ids, ORDER BY id. */
  function JoinRows(accounts: map<Id, Account>, journal: seq<Entry>, ids: set<Id>): seq<Row> {
    if ids == {} then []
    else RowsOf(accounts, journal, Least(ids)) + JoinRows(accounts, journal, ids - {Least(ids)})
  }

  // ---------------------------------------------------------------- classification

  function Classify(row: Row): seq<Issue> {
    if row.unexpected then [Issue(row.account, None, row.computed, Unexpected)]
    else if row.noJournalSupport && row.cached != Some(0) then [Issue(row.account, row.cached, 0, Missing)]
    else if row.cached != Some(row.computed) then [Issue(row.account, row.cached, row.computed, Mismatched)]
    else []
  }

  function ClassifyAll(rows: seq<Row>): seq<Issue> {
    if |rows| == 0 then [] else ClassifyAll(rows[..|rows| - 1]) + Classify(rows[|rows| - 1])
  }

  // ---------------------------------------------------------------- the verdict on any tables

  predicate HasEntries(journal: seq<Entry>, id: Id) {
    exists e :: e in journal && e.account == id
  }

  /** A group of entries the accounts table does not account for, or a balance with no entries behind it. */
  predicate IsIssue(accounts: map<Id, Account>, journal: seq<Entry>, issue: Issue) {
    var id := issue.account;
    if id !in accounts then
      exists c :: c in Groups(journal, id) && issue == Issue(id, None, GroupSum(journal, id, c), Unexpected)
    else
      var cached := accounts[id].balance;
      if HasEntries(journal, id) then
        exists c :: c in Groups(journal, id) && GroupSum(journal, id, c) != cached
                    && issue == Issue(id, Some(cached), GroupSum(journal, id, c), Mismatched)
      else cached != 0 && issue == Issue(id, Some(cached), 0, Missing)
  }

  /** Every group of the account's entries sums to its cached balance, and without entries that is zero. */
  predicate GroupsAgree(accounts: map<Id, Account>, journal: seq<Entry>, id: Id)
    requires id in accounts
  {
    && (forall c :: c in Groups(journal, id) ==> GroupSum(journal, id, c) == accounts[id].balance)
    && (!HasEntries(journal, id) ==> accounts[id].balance == 0)
  }

  lemma {:induction false} GroupsAre(journal: seq<Entry>, id: Id)
    ensures forall c :: c in Groups(journal, id) <==> exists e :: e in journal && e.account == id && e.currency == c
    ensures forall i, j :: 0 <= i < j < |Groups(journal, id)| ==> Groups(journal, id)[i] != Groups(journal, id)[j]
  {
    if |journal| > 0 {
      var prefix, last := journal[..|journal| - 1], journal[|journal| - 1];
      GroupsAre(prefix, id);
      assert journal == prefix + [last];
      forall c
        ensures c in Groups(journal, id) <==> exists e :: e in journal && e.account == id && e.currency == c
      {
        if last.account == id && last.currency == c { assert last in journal; }
      }
    }
  }

  /** No groups, no entries. */
  lemma GroupsOfEntries(journal: seq<Entry>, id: Id)
    ensures Groups(journal, id) == [] <==> !HasEntries(journal, id)
  {
    GroupsAre(journal, id);
    if HasEntries(journal, id) {
      var e :| e in journal && e.account == id;
      assert e.currency in Groups(journal, id);
    }
  }

  lemma {:induction false} ClassifyMembers(rows: seq<Row>, issue: Issue)
    ensures issue in ClassifyAll(rows) <==> exists row :: row in rows && Classify(row) == [issue]
  {
    if |rows| > 0 {
      var prefix, last := rows[..|rows| - 1], rows[|rows| - 1];
      ClassifyMembers(prefix, issue);
      assert rows == prefix + [last];
      assert issue in Classify(last) <==> Classify(last) == [issue];
    }
  }

  /** The rows of one account classify to exactly its issues. */
  lemma RowsAreIssues(accounts: map<Id, Account>, journal: seq<Entry>, id: Id, issue: Issue)
    ensures issue in ClassifyAll(RowsOf(accounts, journal, id)) <==>
      issue.account == id && IsIssue(accounts, journal, issue)
  {
    var rows, groups := RowsOf(accounts, journal, id), Groups(journal, id);
    ClassifyMembers(rows, issue);
    GroupsOfEntries(journal, id);
    if groups == [] {
      if id in accounts {
        assert rows == [Row(id, CachedBalance(accounts, id), 0, false, true)];
        assert rows[0] in rows;
      }
    } else {
      if issue in ClassifyAll(rows) {
        var row :| row in rows && Classify(row) == [issue];
        var i :| 0 <= i < |rows| && rows[i] == row;
        assert groups[i] in groups;
      }
      if issue.account == id && IsIssue(accounts, journal, issue) {
        var c :| c in groups && issue.computed == GroupSum(journal, id, c)
          && (id in accounts ==> GroupSum(journal, id, c) != accounts[id].balance);
        var i :| 0 <= i < |groups| && groups[i] == c;
        assert rows[i] in rows && Classify(rows[i]) == [issue];
      }
    }
  }

  lemma {:induction false} ClassifyConcat(a: seq<Row>, b: seq<Row>)
    ensures ClassifyAll(a + b) == ClassifyAll(a) + ClassifyAll(b)
  {
    if |b| == 0 {
      assert a + b == a;
    } else {
      assert (a + b)[..|a + b| - 1] == a + b[..|b| - 1];
      ClassifyConcat(a, b[..|b| - 1]);
    }
  }

  lemma {:induction false} JoinedIssues(accounts: map<Id, Account>, journal: seq<Entry>, ids: set<Id>)
    ensures var issues := ClassifyAll(JoinRows(accounts, journal, ids));
      && (forall issue :: issue in issues <==> issue.account in ids && IsIssue(accounts, journal, issue))
      && (forall i, j :: 0 <= i < j < |issues| ==> issues[i].account <= issues[j].account)
  {
    if ids != {} {
      var least := Least(ids);
      var rest := ids - {least};
      JoinedIssues(accounts, journal, rest);
      ClassifyConcat(RowsOf(accounts, journal, least), JoinRows(accounts, journal, rest));
      var head, tail := ClassifyAll(RowsOf(accounts, journal, least)), ClassifyAll(JoinRows(accounts, journal, rest));
      hide RowsOf, ClassifyAll, IsIssue;
      forall issue
        ensures issue in head <==> issue.account == least && IsIssue(accounts, journal, issue)
      {
        RowsAreIssues(accounts, journal, least, issue);
      }
      forall i, j | 0 <= i < j < |head + tail|
        ensures (head + tail)[i].account <= (head + tail)[j].account
      {
        assert i < |head| ==> head[i] in head;
        assert j < |head| ==> head[j] in head;
        assert j >= |head| ==> tail[j - |head|] in tail;
      }
    }
  }

  lemma IssuesAreKnown(accounts: map<Id, Account>, journal: seq<Entry>, issue: Issue)
    requires IsIssue(accounts, journal, issue)
    ensures issue.account in KnownIds(accounts, journal)
  {
    GroupsAre(journal, issue.account);
  }

  /** An unknown account with entries, or an account that disagrees, has an issue. */
  lemma DisagreementHasIssue(accounts: map<Id, Account>, journal: seq<Entry>, id: Id) returns (issue: Issue)
    requires if id in accounts then !GroupsAgree(accounts, journal, id) else HasEntries(journal, id)
    ensures IsIssue(accounts, journal, issue)
  {
    GroupsOfEntries(journal, id);
    if id !in accounts {
      var c := Groups(journal, id)[0];
      issue := Issue(id, None, GroupSum(journal, id, c), Unexpected);
      assert c in Groups(journal, id);
    } else if !HasEntries(journal, id) {
      issue := Issue(id, Some(accounts[id].balance), 0, Missing);
    } else {
      var c :| c in Groups(journal, id) && GroupSum(journal, id, c) != accounts[id].balance;
      issue := Issue(id, Some(accounts[id].balance), GroupSum(journal, id, c), Mismatched);
    }
  }

  /**
   * The report is exact for any tables at all: it lists exactly the issues, in id order, and it is
   * ok if and only if every journal account is known and every account agrees with each group of
   * its entries.
   */
  lemma ReportIsExact(accounts: map<Id, Account>, journal: seq<Entry>)
    ensures var issues := ClassifyAll(JoinRows(accounts, journal, KnownIds(accounts, journal)));
      && (forall issue :: issue in issues <==> IsIssue(accounts, journal, issue))
      && (forall i, j :: 0 <= i < j < |issues| ==> issues[i].account <= issues[j].account)
      && (issues == [] <==>
            && (forall e :: e in journal ==> e.account in accounts)
            && (forall id :: id in accounts ==> GroupsAgree(accounts, journal, id)))
  {
    var issues := ClassifyAll(JoinRows(accounts, journal, KnownIds(accounts, journal)));
    hide ClassifyAll, JoinRows;
    JoinedIssues(accounts, journal, KnownIds(accounts, journal));
    forall issue | IsIssue(accounts, journal, issue)
      ensures issue in issues
    {
      IssuesAreKnown(accounts, journal, issue);
    }
    OkIff(accounts, journal, issues);
  }

  lemma OkIff(accounts: map<Id, Account>, journal: seq<Entry>, issues: seq<Issue>)
    requires forall issue :: issue in issues <==> IsIssue(accounts, journal, issue)
    ensures issues == [] <==>
      && (forall e :: e in journal ==> e.account in accounts)
      && (forall id :: id in accounts ==> GroupsAgree(accounts, journal, id))
  {
    if issues == [] {
      forall e | e in journal
        ensures e.account in accounts
      {
        if e.account !in accounts { var issue := DisagreementHasIssue(accounts, journal, e.account); }
      }
      forall id | id in accounts
        ensures GroupsAgree(accounts, journal, id)
      {
        if !GroupsAgree(accounts, journal, id) { var issue := DisagreementHasIssue(accounts, journal, id); }
      }
    } else {
      var issue := issues[0];
      assert issue in issues;
      GroupsAre(journal, issue.account);
    }
  }

  // ---------------------------------------------------------------- the run

  class ReconciliationStore {
    var accounts: map<Id, Account>
    var journal: seq<Entry>

    /** Read-only: walks the joined rows and pushes one issue for each that disagrees. */
    method Run() returns (report: Report)
      ensures report.accountsChecked == |accounts|
      ensures report.issues == ClassifyAll(JoinRows(accounts, journal, KnownIds(accounts, journal)))
      ensures forall issue :: issue in report.issues <==> IsIssue(accounts, journal, issue)
      ensures forall i, j :: 0 <= i < j < |report.issues| ==> report.issues[i].account <= report.issues[j].account
      ensures report.ok <==>
        && (forall e :: e in journal ==> e.account in accounts)
        && (forall id :: id in accounts ==> GroupsAgree(accounts, journal, id))
    {
      hide JoinRows, RowsOf, IsIssue, GroupsAgree, KnownIds;
      ReportIsExact(accounts, journal);
      var rows := JoinRows(accounts, journal, KnownIds(accounts, journal));
      var issues := [];
      for i := 0 to |rows|
        invariant issues == ClassifyAll(rows[..i])
      {
        var row := rows[i];
        assert rows[..i + 1][..i] == rows[..i];
        if row.unexpected {
          issues := issues + [Issue(row.account, None, row.computed, Unexpected)];
          continue;
        }
        if row.noJournalSupport && row.cached != Some(0) {
          issues := issues + [Issue(row.account, row.cached, 0, Missing)];
          continue;
        }
        if row.cached != Some(row.computed) {
          issues := issues + [Issue(row.account, row.cached, row.computed, Mismatched)];
        }
      }
      assert rows[..|rows|] == rows;
      report := Report(|accounts|, issues, |issues| == 0);
    }
  }

  // ---------------------------------------------------------------- one currency per account

  /** All entries of one account are in one currency. */
  predicate OneCurrencyPerAccount(journal: seq<Entry>) {
    forall e, f :: e in journal && f in journal && e.account == f.account ==> e.currency == f.currency
  }

  /** What should be reported about one account id. */
  function Disagreement(accounts: map<Id, Account>, journal: seq<Entry>, id: Id): seq<Issue> {
    var sum := AccountSum(journal, id);
    if id !in accounts then (if HasEntries(journal, id) then [Issue(id, None, sum, Unexpected)] else [])
    else
      var cached := accounts[id].balance;
      if cached == sum then []
      else [Issue(id, Some(cached), sum, if HasEntries(journal, id) then Mismatched else Missing)]
  }

  lemma {:induction false} OneGroupIsAll(journal: seq<Entry>, id: Id, c: Currency)
    requires forall e :: e in journal && e.account == id ==> e.currency == c
    ensures GroupSum(journal, id, c) == AccountSum(journal, id)
  {
    if |journal| > 0 {
      assert journal[|journal| - 1] in journal;
      OneGroupIsAll(journal[..|journal| - 1], id, c);
    }
  }

  lemma TwoOfMany(groups: seq<Currency>)
    requires forall i, j :: 0 <= i < j < |groups| ==> groups[i] != groups[j]
    ensures |groups| > 1 ==> exists c, d :: c in groups && d in groups && c != d
  {
    if |groups| > 1 {
      assert groups[0] in groups && groups[1] in groups;
    }
  }

  lemma DisagreementShape(accounts: map<Id, Account>, journal: seq<Entry>, id: Id)
    ensures var d := Disagreement(accounts, journal, id);
      d == [] || exists issue: Issue :: issue.account == id && d == [issue]
  {
    var d := Disagreement(accounts, journal, id);
    if d != [] {
      assert d[0].account == id && d == [d[0]];
    }
  }

  /** With one currency per account, the join has one row per account and it classifies as it should. */
  lemma RowsClassifyRight(accounts: map<Id, Account>, journal: seq<Entry>, id: Id)
    requires OneCurrencyPerAccount(journal)
    ensures ClassifyAll(RowsOf(accounts, journal, id)) == Disagreement(accounts, journal, id)
  {
    GroupsAre(journal, id);
    var groups, rows := Groups(journal, id), RowsOf(accounts, journal, id);
    if |groups| == 0 {
      forall e | e in journal
        ensures e.account != id
      {
        assert e.account == id ==> e.currency in groups;
      }
      AccountSumAbsent(journal, id);
      assert |rows| == 1 ==> rows[..0] == [];
    } else {
      assert groups[0] in groups;
      TwoOfMany(groups);
      assert |groups| == 1;
      OneGroupIsAll(journal, id, groups[0]);
      assert rows[..0] == [];
    }
  }

  /** The disagreements of the given ids in ascending order. */
  function Disagreements(accounts: map<Id, Account>, journal: seq<Entry>, ids: set<Id>): seq<Issue> {
    if ids == {} then []
    else Disagreement(accounts, journal, Least(ids)) + Disagreements(accounts, journal, ids - {Least(ids)})
  }

  lemma {:induction false} JoinClassifiesRight(accounts: map<Id, Account>, journal: seq<Entry>, ids: set<Id>)
    requires OneCurrencyPerAccount(journal)
    ensures ClassifyAll(JoinRows(accounts, journal, ids)) == Disagreements(accounts, journal, ids)
  {
    if ids != {} {
      var rest := ids - {Least(ids)};
      JoinClassifiesRight(accounts, journal, rest);
      RowsClassifyRight(accounts, journal, Least(ids));
      ClassifyConcat(RowsOf(accounts, journal, Least(ids)), JoinRows(accounts, journal, rest));
    }
  }

  /** An issue is listed exactly when its account disagrees, and no account is listed twice. */
  lemma {:induction false} DisagreementsAre(accounts: map<Id, Account>, journal: seq<Entry>, ids: set<Id>)
    ensures var issues := Disagreements(accounts, journal, ids);
      && (forall issue :: issue in issues <==>
            issue.account in ids && Disagreement(accounts, journal, issue.account) == [issue])
      && (forall i, j :: 0 <= i < j < |issues| ==> issues[i].account < issues[j].account)
  {
    if ids != {} {
      var least := Least(ids);
      var rest := ids - {least};
      DisagreementsAre(accounts, journal, rest);
      var head, tail := Disagreement(accounts, journal, least), Disagreements(accounts, journal, rest);
      var issues := head + tail;
      assert forall x :: x in rest ==> least <= x && x != least;
      forall issue: Issue
        ensures issue in issues <==> issue.account in ids && Disagreement(accounts, journal, issue.account) == [issue]
      {
        assert issue in issues <==> issue in head || issue in tail;
        assert head == [issue] <==> issue in head;
      }
      forall i, j | 0 <= i < j < |issues|
        ensures issues[i].account < issues[j].account
      {
        if i < |head| <= j {
          assert issues[j] in tail;
        }
      }
    }
  }

  /** Nothing is listed exactly when every cached balance equals its journal sum and every journal account is known. */
  lemma NothingListedIff(accounts: map<Id, Account>, journal: seq<Entry>, issues: seq<Issue>)
    requires forall issue: Issue :: issue in issues <==> Disagreement(accounts, journal, issue.account) == [issue]
    ensures issues == [] <==>
      && (forall id :: id in accounts ==> accounts[id].balance == AccountSum(journal, id))
      && (forall e :: e in journal ==> e.account in accounts)
  {
    if issues == [] {
      forall id ensures Disagreement(accounts, journal, id) == [] { DisagreementShape(accounts, journal, id); }
      forall id | id in accounts
        ensures accounts[id].balance == AccountSum(journal, id)
      {
        assert Disagreement(accounts, journal, id) == [];
      }
      forall e | e in journal
        ensures e.account in accounts
      {
        assert Disagreement(accounts, journal, e.account) == [];
      }
    } else {
      assert issues[0] in issues;
      assert Disagreement(accounts, journal, issues[0].account) == [issues[0]];
    }
  }

  /**
   * With one currency per account, which the journal's composite foreign key guarantees, each
   * disagreeing account is listed once, in id order, with the right type and both balances, and the
   * report is ok exactly when every cached balance equals its journal sum and every journal account
   * is known.
   */
  lemma OneIssuePerAccount(accounts: map<Id, Account>, journal: seq<Entry>)
    requires OneCurrencyPerAccount(journal)
    ensures var issues := ClassifyAll(JoinRows(accounts, journal, KnownIds(accounts, journal)));
      && (forall issue :: issue in issues <==> Disagreement(accounts, journal, issue.account) == [issue])
      && (forall i, j :: 0 <= i < j < |issues| ==> issues[i].account < issues[j].account)
      && (issues == [] <==>
            (forall id :: id in accounts ==> accounts[id].balance == AccountSum(journal, id))
            && (forall e :: e in journal ==> e.account in accounts))
  {
    var ids := KnownIds(accounts, journal);
    JoinClassifiesRight(accounts, journal, ids);
    DisagreementsAre(accounts, journal, ids);
    forall issue: Issue
      ensures Disagreement(accounts, journal, issue.account) == [issue] ==> issue.account in ids
    {
    }
    NothingListedIff(accounts, journal, Disagreements(accounts, journal, ids));
  }

  /** A consistent book reconciles. */
  lemma ConsistentBookReconciles(book: Book)
    requires BookInv(book)
    ensures ClassifyAll(JoinRows(book.accounts, book.journal, KnownIds(book.accounts, book.journal))) == []
  {
    forall e, f | e in book.journal && f in book.journal && e.account == f.account
      ensures e.currency == f.currency
    {
      assert EntryAllowed(book, e) && EntryAllowed(book, f);
    }
    forall e | e in book.journal ensures e.account in book.accounts { assert EntryAllowed(book, e); }
    OneIssuePerAccount(book.accounts, book.journal);
  }

  /** An account's entries in two currencies that cancel. */
  const CANCELLING: seq<Entry> := [Entry(1, 7, 0, Debit, 5), Entry(1, 7, 1, Credit, 5)]

  /** One entry more. */
  lemma SumsStep(journal: seq<Entry>, e: Entry, id: Id, c: Currency)
    ensures AccountSum(journal + [e], id) == AccountSum(journal, id) + if e.account == id then Signed(e) else 0
    ensures GroupSum(journal + [e], id, c) ==
      GroupSum(journal, id, c) + if e.account == id && e.currency == c then Signed(e) else 0
    ensures Groups(journal + [e], id) ==
      var groups := Groups(journal, id);
      if e.account == id && e.currency !in groups then groups + [e.currency] else groups
  {
    assert (journal + [e])[..|journal|] == journal;
  }

  lemma CancellingSums()
    ensures AccountSum(CANCELLING, 7) == 0 && Groups(CANCELLING, 7) == [0, 1]
    ensures GroupSum(CANCELLING, 7, 0) == 5 && GroupSum(CANCELLING, 7, 1) == -5
  {
    var debit, credit := Entry(1, 7, 0, Debit, 5), Entry(1, 7, 1, Credit, 5);
    assert AccountSum([], 7) == 0 && Groups([], 7) == [] && GroupSum([], 7, 0) == 0 && GroupSum([], 7, 1) == 0;
    hide AccountSum, Groups, GroupSum;
    forall c: Currency
      ensures GroupSum([debit], 7, c) == GroupSum([], 7, c) + if c == 0 then 5 else 0
      ensures GroupSum(CANCELLING, 7, c) == GroupSum([debit], 7, c) + if c == 1 then -5 else 0
      ensures AccountSum(CANCELLING, 7) == 0 && Groups([debit], 7) == [0] && Groups(CANCELLING, 7) == [0, 1]
    {
      assert [] + [debit] == [debit] && [debit] + [credit] == CANCELLING;
      SumsStep([], debit, 7, c);
      SumsStep([debit], credit, 7, c);
    }
  }

  /**
   * Without one currency per account the verdict is not about the account's sum: here the entries
   * cancel and the cached balance is right, yet two issues are reported for one account.  The
   * composite foreign key on (account_id, currency) keeps such a journal from ever arising.
   */
  lemma TwoCurrenciesReportedTwice()
    ensures var accounts := map[7 := Account(0, Active, 0, false, None)];
      && accounts[7].balance == AccountSum(CANCELLING, 7)
      && |ClassifyAll(JoinRows(accounts, CANCELLING, KnownIds(accounts, CANCELLING)))| == 2
  {
    var accounts := map[7 := Account(0, Active, 0, false, None)];
    CancellingSums();
    hide AccountSum, Groups, GroupSum;
    assert KnownIds(accounts, CANCELLING) == {7};
    var rows := RowsOf(accounts, CANCELLING, 7);
    assert JoinRows(accounts, CANCELLING, {7}) == rows + [] by { assert Least({7}) == 7 && {7} - {7} == {}; }
    assert rows + [] == rows && rows[..1][..0] == [];
    assert ClassifyAll(rows[..1]) == Classify(rows[0]);
  }
}
