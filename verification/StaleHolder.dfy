/**
 * Whose claim a posting transaction completes.  The backstop asks for an unfinished row of the key,
 * not for the claim the request once made: a request whose claim went stale and was reclaimed by
 * another caller still posts, and settles the later claim.
 */
module StaleHolder {
  import opened Basics
  import opened Ledger
  import opened Requests
  import opened Idempotency
  import opened Postings
  import DB = LedgerDatabase

  // ---------------------------------------------------------------- when the backstop rolls back

  /**
   * A transaction that has written its posting is rolled back by the backstop if and only if the rows
   * its UPDATE sees hold no unfinished row of its key; when the claim was made, and by whom, plays no
   * part.  A funding, which is READ COMMITTED, sees the rows of that moment.  A transfer is
   * SERIALIZABLE and sees its snapshot: a row inserted since is missed and a row settled since is a
   * serialization failure, so it may be rolled back more often, but never commits without such a row.
   */
  lemma BackstopIff(s: State, t: TxId, events: seq<Id>)
    requires TxInv(s) && t in s.txs && s.txs[t].phase.Written? && s.txs[t].req.key.Some?
    ensures var x := s.txs[t];
      DB.CommitRequest(DB.Tables(s.book, s.keys, events), x.id, x.req, x.startedAt) == Err(DB.KeyNotHeld) <==>
        !Unfinished(s.keys, x.req.key.value)
    ensures var k := s.txs[t].req.key.value;
      !KeyLocked(s, k) ==>
        && (Enabled(s, TakeKey(t)) <==> Unfinished(s.keys, k))
        && (Enabled(s, Reject(t)) <==> !Unfinished(s.keys, k))
  {
    hide RunBody;
    var x := s.txs[t];
    assert TxOk(s, x);
    RowsAreCurrent(s, x);
    BodyLocal(s.book, x.rows, x.id, x.req);
  }

  /** With its rows locked, its body sound and some unfinished row of its key free, an attempt gets to commit. */
  lemma UnfinishedRowSuffices(s: State, t: TxId)
    requires t in s.txs && AllLocked(s.txs[t]) && Outcome(s, s.txs[t]).Ok? && s.txs[t].req.key.Some?
    requires Unfinished(s.keys, s.txs[t].req.key.value) && !KeyLocked(s, s.txs[t].req.key.value)
    ensures Enabled(s, Post(t)) && Enabled(Apply(s, Post(t)), TakeKey(t))
    ensures var taken, x := Apply(Apply(s, Post(t)), TakeKey(t)), s.txs[t];
      && Enabled(taken, CommitTx(t))
      && var end := Apply(taken, CommitTx(t));
      && end.keys == CompleteRow(s.keys, x.req.key.value, PostedResponse(x.id), x.startedAt)
      && end.history == s.history + [Commit(x.id, x.req)] && end.logs == s.logs
  {
    hide RunBody, Install;
  }

  // ---------------------------------------------------------------- the run

  const KEY := Key(7, 0, FundingOperation)
  const REQUEST := Funding(0, 1, 5, Some(KEY))

  /** A customer and its treasury, both empty. */
  const BOOK := Book(
    map[0 := Account(0, Active, 0, false, Option.Some(7)), 1 := Account(0, Active, 0, true, Option.None)],
    map[], [], map[])

  lemma BookIsConsistent()
    ensures BookInv(BOOK)
  {
    var ids, accounts := BOOK.accounts.Keys, BOOK.accounts;
    assert ids == {0, 1} && {0, 1} - {0} == {1} && {1} - {1} == {};
    forall c
      ensures BookTotal(accounts, c) == 0
    {
      CurrencyTotalWithout({0, 1}, accounts, c, 0);
      CurrencyTotalWithout({1}, accounts, c, 1);
    }
  }

  lemma RequestPosts()
    ensures RunBody(View(BOOK, BOOK.accounts, 0), 0, REQUEST).Ok?
  {
    var view, p := View(BOOK, BOOK.accounts, 0), PostingOf(0, REQUEST);
    TwoEntries(view, 0, REQUEST);
    assert p.accountIds[0] == 0;
    var after := FoldEntries(view.accounts, Unnest(p, 0));
    assert after[0].balance == 5 && after[1].balance == -5 && after[1].isTreasury;
  }

  lemma Extend(states: seq<State>, actions: seq<Action>, a: Action) returns (longer: seq<State>, done: seq<Action>)
    requires IsRun(states, actions) && Enabled(states[|actions|], a)
    ensures done == actions + [a] && longer == states + [Apply(states[|actions|], a)] && IsRun(longer, done)
    ensures longer[0] == states[0]
  {
    hide Enabled, Apply, Init;
    longer, done := states + [Apply(states[|actions|], a)], actions + [a];
    forall i | 0 <= i < |done|
      ensures StepAt(longer, done, i)
    {
      assert i < |actions| ==> StepAt(states, actions, i);
    }
  }

  function Started(staleTimeout: nat, keys: Table, txs: map<TxId, Tx>, clock: int, logs: map<Key, KeyLog>): State {
    State(BOOK, staleTimeout, BOOK, keys, txs, clock, [], logs)
  }

  const CLAIMED: Table := map[KEY := Record(1, 0, InProgress)]
  const BEGUN: map<TxId, Tx> := map[0 := Tx(0, REQUEST, map[], Locking(0), 0)]

  /** Claimed at 0 and begun, then stale, then reclaimed by another caller. */
  function Reclaimed(staleTimeout: nat): State {
    State(BOOK, staleTimeout, BOOK, map[KEY := Record(1, staleTimeout + 1, InProgress)],
          map[0 := Tx(0, REQUEST, map[], Locking(0), 0)], staleTimeout + 1, [],
          map[KEY := [Proceeded(0), Proceeded(staleTimeout + 1)]])
  }

  lemma ClaimAndBegin(staleTimeout: nat)
    ensures var start := Started(staleTimeout, map[], map[], 0, map[]);
      var claimed := Started(staleTimeout, CLAIMED, map[], 0, map[KEY := [Proceeded(0)]]);
      && Enabled(start, Run(InsertClaim(KEY, 1))) && Apply(start, Run(InsertClaim(KEY, 1))) == claimed
      && Enabled(claimed, Begin(0, 0, REQUEST))
      && Apply(claimed, Begin(0, 0, REQUEST)) == Started(staleTimeout, CLAIMED, BEGUN, 0, map[KEY := [Proceeded(0)]])
  {
    assert [] + [Proceeded(0)] == [Proceeded(0)];
  }

  lemma WaitAndReclaim(staleTimeout: nat)
    ensures var begun := Started(staleTimeout, CLAIMED, BEGUN, 0, map[KEY := [Proceeded(0)]]);
      var stale := Started(staleTimeout, CLAIMED, BEGUN, staleTimeout + 1, map[KEY := [Proceeded(0)]]);
      && Enabled(begun, Tick(staleTimeout + 1)) && Apply(begun, Tick(staleTimeout + 1)) == stale
      && Enabled(stale, Run(Reclaim(KEY, 1, 1)))
      && Apply(stale, Run(Reclaim(KEY, 1, 1))) == Reclaimed(staleTimeout)
  {
    assert [Proceeded(0)] + [Proceeded(staleTimeout + 1)] == [Proceeded(0), Proceeded(staleTimeout + 1)];
  }

  lemma ReclaimedReached(staleTimeout: nat) returns (states: seq<State>, actions: seq<Action>)
    ensures IsRun(states, actions) && states[|actions|] == Reclaimed(staleTimeout)
    ensures states[0].staleTimeout == staleTimeout
    ensures actions ==
      [Run(InsertClaim(KEY, 1)), Begin(0, 0, REQUEST), Tick(staleTimeout + 1), Run(Reclaim(KEY, 1, 1))]
  {
    hide Init, Enabled, Apply, Reclaimed;
    StartsRun(staleTimeout);
    ClaimAndBegin(staleTimeout);
    WaitAndReclaim(staleTimeout);
    states, actions := [Started(staleTimeout, map[], map[], 0, map[])], [];
    states, actions := Extend(states, actions, Run(InsertClaim(KEY, 1)));
    states, actions := Extend(states, actions, Begin(0, 0, REQUEST));
    states, actions := Extend(states, actions, Tick(staleTimeout + 1));
    states, actions := Extend(states, actions, Run(Reclaim(KEY, 1, 1)));
  }

  lemma StartsRun(staleTimeout: nat)
    ensures IsRun([Started(staleTimeout, map[], map[], 0, map[])], [])
  {
    BookIsConsistent();
  }

  /** The first caller's two row locks. */
  lemma LocksTaken(staleTimeout: nat)
    ensures var s := Reclaimed(staleTimeout);
      && Enabled(s, Lock(0)) && Enabled(Apply(s, Lock(0)), Lock(0))
      && Apply(Apply(s, Lock(0)), Lock(0)) == Locked(staleTimeout)
  {
    assert LockOrder(REQUEST) == [0, 1];
    var first := map[0 := BOOK.accounts[0]];
    assert first[1 := BOOK.accounts[1]] == BOOK.accounts;
    assert Apply(Reclaimed(staleTimeout), Lock(0)).txs == map[0 := Tx(0, REQUEST, first, Locking(1), 0)];
  }

  /**
   * For every stale timeout: the first caller's attempt, begun under its own claim, commits after
   * another caller's reclaim.  There is one posting, two callers have proceeded, and the row, last
   * claimed by the second, answers with the first one's posting.
   */
  lemma StaleHolderPosts(staleTimeout: nat) returns (states: seq<State>, actions: seq<Action>)
    ensures IsRun(states, actions) && states[0].staleTimeout == staleTimeout
    ensures actions ==
      [Run(InsertClaim(KEY, 1)), Begin(0, 0, REQUEST), Tick(staleTimeout + 1), Run(Reclaim(KEY, 1, 1)),
       Lock(0), Lock(0), Post(0), TakeKey(0), CommitTx(0)]
    ensures var end := states[|actions|];
      && KeyPostings(end.history, KEY) == 1
      && LogOf(end, KEY) == [Proceeded(0), Proceeded(staleTimeout + 1)]
      && KEY in end.keys && end.keys[KEY] == Record(1, staleTimeout + 1, Completed(PostedResponse(0), 0))
  {
    states, actions := ReclaimedReached(staleTimeout);
    FirstCallerGoesOn(staleTimeout);
    states, actions := FiveMore(states, actions);
  }

  /** Both rows locked, as the first caller's attempt then stands. */
  function Locked(staleTimeout: nat): State {
    Reclaimed(staleTimeout).(txs := map[0 := Tx(0, REQUEST, BOOK.accounts, Locking(2), 0)])
  }

  lemma LockedCanFinish(staleTimeout: nat)
    ensures var s, x := Locked(staleTimeout), Locked(staleTimeout).txs[0];
      && AllLocked(x) && Outcome(s, x).Ok? && x.req == REQUEST && x.id == 0 && x.startedAt == 0
      && Unfinished(s.keys, KEY) && !KeyLocked(s, KEY)
  {
    hide RunBody;
    RequestPosts();
    assert LockOrder(REQUEST) == [0, 1];
  }

  /** The first caller locks, posts, takes the key's row and commits. */
  lemma FirstCallerGoesOn(staleTimeout: nat)
    ensures var s := Reclaimed(staleTimeout);
      && GoesThrough(s)
      && var end := AfterFive(s);
      && KeyPostings(end.history, KEY) == 1 && LogOf(end, KEY) == [Proceeded(0), Proceeded(staleTimeout + 1)]
      && KEY in end.keys && end.keys[KEY] == Record(1, staleTimeout + 1, Completed(PostedResponse(0), 0))
  {
    hide RunBody, Outcome, Install, Enabled, Apply, KeyLocked, AllLocked;
    LocksTaken(staleTimeout);
    LockedCanFinish(staleTimeout);
    UnfinishedRowSuffices(Locked(staleTimeout), 0);
    HistoryStep([], Commit(0, REQUEST), KEY);
    assert [] + [Commit(0, REQUEST)] == [Commit(0, REQUEST)];
  }

  /** The five steps, one after the other. */
  predicate GoesThrough(s: State) {
    && Enabled(s, Lock(0)) && Enabled(Apply(s, Lock(0)), Lock(0))
    && Enabled(Apply(Apply(s, Lock(0)), Lock(0)), Post(0))
    && Enabled(Apply(Apply(Apply(s, Lock(0)), Lock(0)), Post(0)), TakeKey(0))
    && Enabled(Apply(Apply(Apply(Apply(s, Lock(0)), Lock(0)), Post(0)), TakeKey(0)), CommitTx(0))
  }

  function AfterFive(s: State): State
    requires GoesThrough(s)
  {
    Apply(Apply(Apply(Apply(Apply(s, Lock(0)), Lock(0)), Post(0)), TakeKey(0)), CommitTx(0))
  }

  lemma FiveMore(before: seq<State>, start: seq<Action>) returns (states: seq<State>, actions: seq<Action>)
    requires IsRun(before, start) && GoesThrough(before[|start|])
    ensures IsRun(states, actions) && states[0] == before[0]
    ensures actions == start + [Lock(0), Lock(0), Post(0), TakeKey(0), CommitTx(0)]
    ensures states[|actions|] == AfterFive(before[|start|])
  {
    hide Enabled, Apply, Init;
    states, actions := Extend(before, start, Lock(0));
    states, actions := Extend(states, actions, Lock(0));
    states, actions := Extend(states, actions, Post(0));
    states, actions := Extend(states, actions, TakeKey(0));
    states, actions := Extend(states, actions, CommitTx(0));
  }
}
