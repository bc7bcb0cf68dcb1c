/**
 * Keyset pagination on (created_at, id), as the journal and the owned-accounts listings do it: one
 * page is the first `limit` rows after the cursor, and one extra row tells whether more follow.
 */
module Keyset {
  import opened Basics

  datatype Row = Row(createdAt: int, id: nat)

  /** Row comparison `(created_at, id) < (created_at, id)`. */
  predicate Less(a: Row, b: Row) {
    a.createdAt < b.createdAt || (a.createdAt == b.createdAt && a.id < b.id)
  }

  predicate Increasing(rows: seq<Row>) {
    forall i, j :: 0 <= i < j < |rows| ==> Less(rows[i], rows[j])
  }

  predicate PastCursor(cursor: Option<Row>, r: Row) {
    cursor.Some? ==> Less(cursor.value, r)
  }

  predicate LessEqual(a: Row, b: Row) {
    a == b || Less(a, b)
  }

  predicate IsFirst(first: Row, rows: set<Row>) {
    first in rows && forall r :: r in rows && r != first ==> Less(first, r)
  }

  lemma HasFirst(rows: set<Row>)
    requires rows != {}
    ensures exists first :: IsFirst(first, rows)
  {
    HasMinimum(rows, LessEqual);
    var first :| IsMinimum(first, rows, LessEqual);
    assert forall r :: r in rows ==> LessEqual(first, r);
    assert IsFirst(first, rows);
  }

  /** ORDER BY created_at, id. */
  ghost function Ordered(rows: set<Row>): (ordered: seq<Row>)
    ensures Increasing(ordered)
    ensures forall r :: r in ordered <==> r in rows
    ensures |ordered| == |rows|
  {
    if rows == {} then []
    else
      HasFirst(rows);
      var first :| IsFirst(first, rows);
      [first] + Ordered(rows - {first})
  }

  /** An increasing list is determined by its elements. */
  lemma {:induction false} IncreasingUnique(a: seq<Row>, b: seq<Row>)
    requires Increasing(a) && Increasing(b) && forall r :: r in a <==> r in b
    ensures a == b
  {
    if |a| > 0 { assert a[0] in b; }
    if |b| > 0 { assert b[0] in a; }
    if |a| > 0 {
      assert a[0] == b[0];
      forall r
        ensures r in a[1..] <==> r in b[1..]
      {
        assert r in a <==> r == a[0] || r in a[1..];
        assert r in b <==> r == b[0] || r in b[1..];
      }
      IncreasingUnique(a[1..], b[1..]);
    }
  }

  datatype Page = Page(rows: seq<Row>, next: Option<Row>)

  ghost function Matching(table: set<Row>, cursor: Option<Row>): set<Row> {
    set r | r in table && PastCursor(cursor, r)
  }

  /** WHERE row > cursor ORDER BY row LIMIT limit + 1, then keep `limit` of them. */
  ghost function Fetch(table: set<Row>, cursor: Option<Row>, limit: nat): Page {
    var matching := Ordered(Matching(table, cursor));
    var fetched := if |matching| > limit + 1 then matching[..limit + 1] else matching;
    var hasMore := |fetched| > limit;
    var page := if hasMore then fetched[..limit] else fetched;
    Page(page, if hasMore && |page| > 0 then Some(page[|page| - 1]) else None)
  }

  /** A page is increasing, past the cursor, and skips no row before its own last one. */
  lemma FetchFacts(table: set<Row>, cursor: Option<Row>, limit: nat)
    requires limit >= 1
    ensures var p, matching := Fetch(table, cursor, limit), Ordered(Matching(table, cursor));
      && p.rows <= matching
      && (p.next.None? ==> p.rows == matching)
      && (p.next.Some? ==> |p.rows| == limit && p.next.value == p.rows[limit - 1])
      && (forall r :: r in p.rows ==> r in table && PastCursor(cursor, r))
  {
    var p, matching := Fetch(table, cursor, limit), Ordered(Matching(table, cursor));
    forall r | r in p.rows
      ensures r in matching
    {
      var k :| 0 <= k < |p.rows| && p.rows[k] == r;
      assert matching[k] == r;
    }
  }

  /** Following nextCursor from `cursor`, page `i` read from the table as it was then. */
  ghost function Follow(tables: seq<set<Row>>, cursor: Option<Row>, limit: nat): (r: (seq<Row>, bool)) {
    if |tables| == 0 then ([], false)
    else
      var p := Fetch(tables[0], cursor, limit);
      if p.next.None? then (p.rows, true)
      else
        var (rest, done) := Follow(tables[1..], p.next, limit);
        (p.rows + rest, done)
  }

  /** Every row listed is past the cursor and was in some table that was read. */
  ghost predicate FromTables(rows: seq<Row>, tables: seq<set<Row>>, cursor: Option<Row>) {
    forall r :: r in rows ==> PastCursor(cursor, r) && exists i :: 0 <= i < |tables| && r in tables[i]
  }

  predicate Throughout(r: Row, tables: seq<set<Row>>) {
    forall i :: 0 <= i < |tables| ==> r in tables[i]
  }

  /** Every row past the cursor that was there throughout is listed. */
  ghost predicate ListsAll(rows: seq<Row>, tables: seq<set<Row>>, cursor: Option<Row>) {
    forall r :: Throughout(r, tables) && PastCursor(cursor, r) ==> r in rows
  }

  /**
   * However the table changes between pages, the rows listed are strictly increasing, so none
   * appears twice; each was in a table that was read; and once the listing ended, every row that
   * was there throughout is in it.
   */
  lemma {:induction false} FollowIsFaithful(tables: seq<set<Row>>, cursor: Option<Row>, limit: nat)
    requires limit >= 1
    ensures var (rows, done) := Follow(tables, cursor, limit);
      && Increasing(rows)
      && FromTables(rows, tables, cursor)
      && (done ==> ListsAll(rows, tables, cursor))
      && forall i, j :: 0 <= i < j < |rows| ==>
           rows[i].createdAt < rows[j].createdAt || (rows[i].createdAt == rows[j].createdAt && rows[i].id < rows[j].id)
  {
    if |tables| > 0 {
      var p := Fetch(tables[0], cursor, limit);
      FetchFacts(tables[0], cursor, limit);
      if p.next.Some? {
        FollowIsFaithful(tables[1..], p.next, limit);
        var (rest, done) := Follow(tables[1..], p.next, limit);
        hide Fetch, Increasing, FromTables, ListsAll;
        assert Follow(tables, cursor, limit) == (p.rows + rest, done);
        PageThenRest(tables, cursor, limit, rest);
        if done { PageThenAll(tables, cursor, limit, rest); }
      } else {
        LastPage(tables, cursor, limit);
      }
    }
  }

  lemma LastPage(tables: seq<set<Row>>, cursor: Option<Row>, limit: nat)
    requires limit >= 1 && |tables| > 0 && Fetch(tables[0], cursor, limit).next.None?
    ensures var rows := Fetch(tables[0], cursor, limit).rows;
      Increasing(rows) && FromTables(rows, tables, cursor) && ListsAll(rows, tables, cursor)
  {
    FetchFacts(tables[0], cursor, limit);
    hide Fetch;
    var rows := Fetch(tables[0], cursor, limit).rows;
    forall r | r in rows
      ensures PastCursor(cursor, r) && exists i :: 0 <= i < |tables| && r in tables[i]
    {
      assert r in tables[0];
    }
  }

  /** A page followed by rows past its last one. */
  lemma PageThenRest(tables: seq<set<Row>>, cursor: Option<Row>, limit: nat, rest: seq<Row>)
    requires limit >= 1 && |tables| > 0 && Fetch(tables[0], cursor, limit).next.Some?
    requires Increasing(rest) && FromTables(rest, tables[1..], Fetch(tables[0], cursor, limit).next)
    ensures var p := Fetch(tables[0], cursor, limit);
      Increasing(p.rows + rest) && FromTables(p.rows + rest, tables, cursor)
  {
    var p := Fetch(tables[0], cursor, limit);
    FetchFacts(tables[0], cursor, limit);
    hide Fetch;
    assert p.next.value in p.rows;
    LaterTables(rest, tables, cursor, p.next);
    forall r | r in p.rows
      ensures r in tables[0]
    {
    }
    IncreasingConcat(p.rows, rest);
  }

  /** Rows past a later cursor and from later tables are past the cursor and from the tables. */
  lemma LaterTables(rest: seq<Row>, tables: seq<set<Row>>, cursor: Option<Row>, next: Option<Row>)
    requires |tables| > 0 && next.Some? && PastCursor(cursor, next.value) && FromTables(rest, tables[1..], next)
    ensures FromTables(rest, tables, cursor)
  {
    forall r | r in rest
      ensures PastCursor(cursor, r) && exists i :: 0 <= i < |tables| && r in tables[i]
    {
      var i :| 0 <= i < |tables[1..]| && r in tables[1..][i];
      assert r in tables[i + 1];
    }
  }

  lemma IncreasingConcat(a: seq<Row>, b: seq<Row>)
    requires Increasing(a) && Increasing(b) && |a| > 0 && forall r :: r in b ==> Less(a[|a| - 1], r)
    ensures Increasing(a + b)
  {
    forall i, j | 0 <= i < j < |a + b|
      ensures Less((a + b)[i], (a + b)[j])
    {
      if i < |a| <= j {
        assert b[j - |a|] in b && (i < |a| - 1 ==> Less(a[i], a[|a| - 1]));
      }
    }
  }

  /** A row there throughout is on the page, or past its end and so in the rest. */
  lemma PageThenAll(tables: seq<set<Row>>, cursor: Option<Row>, limit: nat, rest: seq<Row>)
    requires limit >= 1 && |tables| > 0 && Fetch(tables[0], cursor, limit).next.Some?
    requires ListsAll(rest, tables[1..], Fetch(tables[0], cursor, limit).next)
    ensures ListsAll(Fetch(tables[0], cursor, limit).rows + rest, tables, cursor)
  {
    var p, matching := Fetch(tables[0], cursor, limit), Ordered(Matching(tables[0], cursor));
    FetchFacts(tables[0], cursor, limit);
    hide Fetch;
    forall r | Throughout(r, tables) && PastCursor(cursor, r)
      ensures r in p.rows + rest
    {
      assert r in tables[0] && r in matching;
      var k :| 0 <= k < |matching| && matching[k] == r;
      if k < limit {
        assert p.rows[k] == r;
      } else {
        assert PastCursor(p.next, r) && Throughout(r, tables[1..]);
      }
    }
  }

  /** When nothing changes between pages, the pages put together are exactly the ordered rest of the table. */
  lemma UnchangedTableListedInOrder(table: set<Row>, tables: seq<set<Row>>, cursor: Option<Row>, limit: nat)
    requires limit >= 1 && forall i :: 0 <= i < |tables| ==> tables[i] == table
    requires |tables| > 0 && Follow(tables, cursor, limit).1
    ensures Follow(tables, cursor, limit).0 == Ordered(Matching(table, cursor))
  {
    FollowIsFaithful(tables, cursor, limit);
    IncreasingUnique(Follow(tables, cursor, limit).0, Ordered(Matching(table, cursor)));
  }

  /** The listing of an unchanged table ends, after at most one page more than it has rows. */
  lemma {:induction false} ListingEnds(table: set<Row>, tables: seq<set<Row>>, cursor: Option<Row>, limit: nat)
    requires limit >= 1 && forall i :: 0 <= i < |tables| ==> tables[i] == table
    requires |tables| > |Matching(table, cursor)|
    ensures Follow(tables, cursor, limit).1
    decreases |tables|
  {
    var p, matching := Fetch(table, cursor, limit), Ordered(Matching(table, cursor));
    FetchFacts(table, cursor, limit);
    if p.next.Some? {
      var last := p.next.value;
      assert last in matching;
      assert Matching(table, p.next) <= Matching(table, cursor) - {last};
      Smaller(Matching(table, p.next), Matching(table, cursor), last);
      ListingEnds(table, tables[1..], p.next, limit);
    }
  }

  lemma Smaller(a: set<Row>, b: set<Row>, x: Row)
    requires a <= b - {x} && x in b
    ensures |a| < |b|
  {
    SubsetCount(a, b - {x});
  }
}
