/**
 * `PostgresIdempotencyStore`: the claim loop, settling and the retention sweep, as the code runs
 * them against the table.  Between any two of its own statements time may pass and other clients
 * may run any statements of the protocol.
 */
module IdempotencyStore {
  import opened Basics
  import opened Batches
  import opened Requests
  import opened Idempotency
  import opened LedgerDatabase

  const MAX_CLAIM_ATTEMPTS: nat := 3

  /** What happens between two statements of one client. */
  datatype Gap = Gap(ms: nat, stmts: seq<Statement>)

  function GapAt(gaps: seq<Gap>, i: nat): Gap {
    if i < |gaps| then gaps[i] else Gap(0, [])
  }

  function RunAll(table: Table, stmts: seq<Statement>, now: int): Table {
    if |stmts| == 0 then table else Execute(RunAll(table, stmts[..|stmts| - 1], now), stmts[|stmts| - 1], now)
  }

  datatype Claimed = Proceed(record: Record) | Replay(record: Record) | Conflict | StillInProgress

  /** One statement of this client: the table it found and when it ran. */
  datatype Ran = Ran(stmt: Statement, before: Table, at: int)

  predicate TookEffect(r: Ran) {
    Affects(r.before, r.stmt)
  }

  /** The statements a claim may issue: exactly what the protocol allows anybody to run. */
  predicate ClaimStatement(r: Ran, k: Key, fingerprint: Fingerprint, staleTimeout: nat) {
    || r.stmt == InsertClaim(k, fingerprint)
    || (&& r.stmt.Reclaim? && r.stmt.key == k && r.stmt.fingerprint == fingerprint
        && r.stmt.threshold <= r.at - staleTimeout)
  }

  /** The claim's own statements are legal, and at most the last one took effect. */
  predicate OwnStatements(own: seq<Ran>, k: Key, fingerprint: Fingerprint, staleTimeout: nat) {
    && (forall i :: 0 <= i < |own| ==> ClaimStatement(own[i], k, fingerprint, staleTimeout))
    && (forall i :: 0 <= i < |own| - 1 ==> !TookEffect(own[i]))
  }

  /** Nobody else purges `r`, the row of `k`. */
  predicate Spares(stmts: seq<Statement>, k: Key, r: Record) {
    forall s :: s in stmts ==>
      !(s.Purge? && s.key == k && r.progress.Completed? && r.progress.completedAt < s.cutoff)
  }

  predicate AllSpare(gaps: seq<Gap>, k: Key, r: Record) {
    forall i :: 0 <= i < |gaps| ==> Spares(gaps[i].stmts, k, r)
  }

  predicate Quiet(gaps: seq<Gap>) {
    forall i :: 0 <= i < |gaps| ==> gaps[i] == Gap(0, [])
  }

  /** A claim nobody interferes with. */
  function ClaimAlone(table: Table, k: Key, fingerprint: Fingerprint, staleTimeout: nat, now: int): (Table, Claimed) {
    if k !in table then
      var record := Record(fingerprint, now, InProgress);
      (table[k := record], Proceed(record))
    else if table[k].fingerprint != fingerprint then (table, Conflict)
    else if table[k].progress.Completed? then (table, Replay(table[k]))
    else if table[k].createdAt < now - staleTimeout then
      (table[k := table[k].(createdAt := now)], Proceed(table[k].(createdAt := now)))
    else (table, StillInProgress)
  }

  lemma {:induction false} CompletedSpared(table: Table, stmts: seq<Statement>, now: int, k: Key)
    requires k in table && table[k].progress.Completed? && Spares(stmts, k, table[k])
    ensures k in RunAll(table, stmts, now) && RunAll(table, stmts, now)[k] == table[k]
  {
    if |stmts| > 0 {
      CompletedSpared(table, stmts[..|stmts| - 1], now, k);
    }
  }

  /** What an answer says about the row, and how it was come by. */
  predicate AnswerFits(r: Claimed, table: Table, own: seq<Ran>, k: Key, fingerprint: Fingerprint) {
    && (r.Proceed? <==> |own| > 0 && TookEffect(own[|own| - 1]))
    && (r.Proceed? ==>
          && k in table && table[k] == r.record
          && r.record == Record(fingerprint, own[|own| - 1].at, InProgress))
    && (r.Replay? ==>
          && k in table && table[k] == r.record && r.record.progress.Completed?
          && (r.record.fingerprint == fingerprint || LostReclaim(own)))
    && (r.Conflict? ==> k in table && table[k].fingerprint != fingerprint)
  }

  /** The last thing this client tried was a reclaim somebody else had beaten it to. */
  predicate LostReclaim(own: seq<Ran>) {
    |own| > 0 && own[|own| - 1].stmt.Reclaim? && !TookEffect(own[|own| - 1])
  }

  predicate Answered(table: Table, k: Key) {
    k in table && table[k].progress.Completed?
  }

  /** A settled key's one answer: its stored response, or a conflict for any other request. */
  function SettledAnswer(table: Table, k: Key, fingerprint: Fingerprint): Claimed
    requires Answered(table, k)
  {
    if table[k].fingerprint == fingerprint then Replay(table[k]) else Conflict
  }

  /** Completed, and past the retention window; an unfinished row never is. */
  function CompletedBefore(cutoff: int): Record -> bool {
    (r: Record) => r.progress.Completed? && r.progress.completedAt < cutoff
  }

  // ---------------------------------------------------------------- the sweep as statements of the protocol

  predicate OnlyPurges(stmts: seq<Statement>, cutoff: int) {
    forall s :: s in stmts ==> s.Purge? && s.cutoff == cutoff
  }

  /** One purge after another deletes what each finds old enough, and nothing else. */
  lemma {:induction false} PurgesLeave(table: Table, stmts: seq<Statement>, cutoff: int, now: int)
    requires OnlyPurges(stmts, cutoff)
    ensures var after := RunAll(table, stmts, now);
      && (forall k :: k in after <==> k in table && !(Purge(k, cutoff) in stmts && Purgeable(table, k, cutoff)))
      && (forall k :: k in after ==> after[k] == table[k])
  {
    if |stmts| > 0 {
      var prefix, last := stmts[..|stmts| - 1], stmts[|stmts| - 1];
      assert stmts == prefix + [last] && last in stmts;
      PurgesLeave(table, prefix, cutoff, now);
    }
  }

  /** `after` is what purging every key of `before`, one statement each, leaves. */
  ghost predicate IsSweep(before: Table, after: Table, cutoff: int, now: int) {
    exists stmts ::
      && OnlyPurges(stmts, cutoff) && |stmts| == |before|
      && (forall k :: k in before ==> Purge(k, cutoff) in stmts)
      && RunAll(before, stmts, now) == after
  }

  lemma PurgeEach(table: Table, cutoff: int) returns (stmts: seq<Statement>)
    ensures OnlyPurges(stmts, cutoff) && |stmts| == |table| && forall k :: k in table ==> Purge(k, cutoff) in stmts
  {
    var keys := Enumerate(table.Keys);
    stmts := seq(|keys|, i requires 0 <= i < |keys| => Purge(keys[i], cutoff));
    forall k | k in table
      ensures Purge(k, cutoff) in stmts
    {
      var i :| 0 <= i < |keys| && keys[i] == k;
      assert stmts[i] == Purge(k, cutoff);
    }
  }

  lemma KeptIsSweep(table: Table, cutoff: int, now: int)
    ensures IsSweep(table, Kept(table, CompletedBefore(cutoff)), cutoff, now)
  {
    hide RunAll, OnlyPurges, Kept;
    var stmts := PurgeEach(table, cutoff);
    PurgesLeave(table, stmts, cutoff, now);
    SweptRows(table, CompletedBefore(cutoff));
    assert RunAll(table, stmts, now) == Kept(table, CompletedBefore(cutoff));
  }

  // ---------------------------------------------------------------- the claim as a function of the gaps

  /** What a claim leaves and answers; no answer means it found the slot empty and tries again. */
  datatype Tried = Tried(table: Table, clock: int, answer: Option<Claimed>)

  function After(table: Table, now: int, gap: Gap): Table {
    RunAll(table, gap.stmts, now + gap.ms)
  }

  /** From the conditional UPDATE on. */
  function ReclaimWith(table: Table, k: Key, fingerprint: Fingerprint, threshold: int, now: int,
                       first: Gap, second: Gap): Tried {
    var updated, at := After(table, now, first), now + first.ms;
    if Reclaimable(updated, k, fingerprint, threshold) then
      var record := updated[k].(createdAt := at);
      Tried(updated[k := record], at, Some(Proceed(record)))
    else
      var reread := After(updated, at, second);
      Tried(reread, at + second.ms,
        if k !in reread then None
        else if reread[k].progress.Completed? then Some(Replay(reread[k]))
        else Some(StillInProgress))
  }

  function TryClaimWith(table: Table, k: Key, fingerprint: Fingerprint, staleTimeout: nat, now: int,
                        gaps: seq<Gap>, g: nat): Tried {
    if k !in table then
      var record := Record(fingerprint, now, InProgress);
      Tried(table[k := record], now, Some(Proceed(record)))
    else
      var seen, at := After(table, now, GapAt(gaps, g)), now + GapAt(gaps, g).ms;
      if k !in seen then Tried(seen, at, None)
      else if seen[k].fingerprint != fingerprint then Tried(seen, at, Some(Conflict))
      else if seen[k].progress.Completed? then Tried(seen, at, Some(Replay(seen[k])))
      else if seen[k].createdAt < at - staleTimeout then
        ReclaimWith(seen, k, fingerprint, at - staleTimeout, at, GapAt(gaps, g + 1), GapAt(gaps, g + 2))
      else Tried(seen, at, Some(StillInProgress))
  }

  /** The tries from `attempt` on, four gaps to each. */
  function ClaimWith(table: Table, k: Key, fingerprint: Fingerprint, staleTimeout: nat, now: int,
                     gaps: seq<Gap>, attempt: nat): Tried
    decreases MAX_CLAIM_ATTEMPTS - attempt
  {
    var tried := TryClaimWith(table, k, fingerprint, staleTimeout, now, gaps, 4 * attempt);
    if tried.answer.Some? then tried
    else if attempt + 1 >= MAX_CLAIM_ATTEMPTS then tried.(answer := Some(StillInProgress))
    else
      var gap := GapAt(gaps, 4 * attempt + 3);
      ClaimWith(After(tried.table, tried.clock, gap), k, fingerprint, staleTimeout, tried.clock + gap.ms,
                gaps, attempt + 1)
  }

  /** A settled row nobody purges is answered from the row, and stays. */
  lemma SettledIsAnswered(table: Table, k: Key, fingerprint: Fingerprint, staleTimeout: nat, now: int, gaps: seq<Gap>)
    requires Answered(table, k) && AllSpare(gaps, k, table[k])
    ensures var tried := ClaimWith(table, k, fingerprint, staleTimeout, now, gaps, 0);
      && tried.answer == Some(SettledAnswer(table, k, fingerprint))
      && k in tried.table && tried.table[k] == table[k]
  {
    CompletedSpared(table, GapAt(gaps, 0).stmts, now + GapAt(gaps, 0).ms, k);
  }

  /** A claim nobody interferes with is the one-step claim. */
  lemma QuietIsAlone(table: Table, k: Key, fingerprint: Fingerprint, staleTimeout: nat, now: int, gaps: seq<Gap>)
    requires Quiet(gaps)
    ensures var tried := ClaimWith(table, k, fingerprint, staleTimeout, now, gaps, 0);
      && tried.answer.Some? && tried.clock == now
      && (tried.table, tried.answer.value) == ClaimAlone(table, k, fingerprint, staleTimeout, now)
  {
    assert forall t: Table :: RunAll(t, [], now) == t;
    assert GapAt(gaps, 0) == GapAt(gaps, 1) == GapAt(gaps, 2) == Gap(0, []);
  }

  // ---------------------------------------------------------------- whose answer a replay carries

  /** The stored answer of a request with another fingerprint is replayed. */
  predicate ForeignReplay(answer: Option<Claimed>, fingerprint: Fingerprint) {
    answer.Some? && answer.value.Replay? && answer.value.record.fingerprint != fingerprint
  }

  /**
   * A try replays another request's answer if and only if its INSERT found a row, its SELECT saw
   * its own stale claim, its UPDATE then moved nothing, and the row it read again was completed
   * under another fingerprint.
   */
  lemma ForeignReplayIff(table: Table, k: Key, fingerprint: Fingerprint, staleTimeout: nat, now: int,
                         gaps: seq<Gap>, g: nat)
    ensures var at := now + GapAt(gaps, g).ms;
      var seen := After(table, now, GapAt(gaps, g));
      var updated := After(seen, at, GapAt(gaps, g + 1));
      var reread := After(updated, at + GapAt(gaps, g + 1).ms, GapAt(gaps, g + 2));
      ForeignReplay(TryClaimWith(table, k, fingerprint, staleTimeout, now, gaps, g).answer, fingerprint) <==>
        && k in table
        && Reclaimable(seen, k, fingerprint, at - staleTimeout)
        && !Reclaimable(updated, k, fingerprint, at - staleTimeout)
        && Answered(reread, k) && reread[k].fingerprint != fingerprint
  {
    hide RunAll;
  }

  /** Nobody releases or purges the row of `k`. */
  predicate RemovesNothing(stmts: seq<Statement>, k: Key) {
    forall s :: s in stmts && s.key == k ==> !s.Release? && !s.Purge?
  }

  predicate NothingRemoved(gaps: seq<Gap>, k: Key) {
    forall i :: 0 <= i < |gaps| ==> RemovesNothing(gaps[i].stmts, k)
  }

  /** A row nobody removes keeps its fingerprint. */
  lemma {:induction false} FingerprintStays(table: Table, stmts: seq<Statement>, now: int, k: Key)
    requires k in table && RemovesNothing(stmts, k)
    ensures k in RunAll(table, stmts, now) && RunAll(table, stmts, now)[k].fingerprint == table[k].fingerprint
  {
    if |stmts| > 0 {
      FingerprintStays(table, stmts[..|stmts| - 1], now, k);
      assert stmts[|stmts| - 1] in stmts;
    }
  }

  /**
   * With no release and no purge of its key between its SELECT and its second look, a try never
   * replays a foreign answer.
   */
  lemma NoForeignReplay(table: Table, k: Key, fingerprint: Fingerprint, staleTimeout: nat, now: int,
                        gaps: seq<Gap>, g: nat)
    requires RemovesNothing(GapAt(gaps, g + 1).stmts, k) && RemovesNothing(GapAt(gaps, g + 2).stmts, k)
    ensures !ForeignReplay(TryClaimWith(table, k, fingerprint, staleTimeout, now, gaps, g).answer, fingerprint)
  {
    hide RunAll, ForeignReplay, TryClaimWith;
    ForeignReplayIff(table, k, fingerprint, staleTimeout, now, gaps, g);
    var at := now + GapAt(gaps, g).ms;
    var seen := After(table, now, GapAt(gaps, g));
    var updated, later := After(seen, at, GapAt(gaps, g + 1)), at + GapAt(gaps, g + 1).ms;
    if k in seen {
      FingerprintStays(seen, GapAt(gaps, g + 1).stmts, later, k);
      FingerprintStays(updated, GapAt(gaps, g + 2).stmts, later + GapAt(gaps, g + 2).ms, k);
    }
  }

  /** The same for the whole claim. */
  lemma {:induction false} ClaimReplaysOwn(table: Table, k: Key, fingerprint: Fingerprint, staleTimeout: nat, now: int,
                                           gaps: seq<Gap>, attempt: nat)
    requires NothingRemoved(gaps, k)
    ensures !ForeignReplay(ClaimWith(table, k, fingerprint, staleTimeout, now, gaps, attempt).answer, fingerprint)
    decreases MAX_CLAIM_ATTEMPTS - attempt
  {
    hide TryClaimWith, After;
    NoForeignReplay(table, k, fingerprint, staleTimeout, now, gaps, 4 * attempt);
    var tried := TryClaimWith(table, k, fingerprint, staleTimeout, now, gaps, 4 * attempt);
    if tried.answer.None? && attempt + 1 < MAX_CLAIM_ATTEMPTS {
      var gap := GapAt(gaps, 4 * attempt + 3);
      ClaimReplaysOwn(After(tried.table, tried.clock, gap), k, fingerprint, staleTimeout, tried.clock + gap.ms,
                      gaps, attempt + 1);
    }
  }

  /**
   * It does happen: the stale claim is released, another request takes the key and is answered,
   * all between the SELECT and the UPDATE; the other request's answer is replayed.
   */
  lemma ForeignAnswerReplayed(k: Key, other: Response)
    ensures var table := map[k := Record(1, 0, InProgress)];
      var gaps := [Gap(0, []), Gap(0, [Release(k), InsertClaim(k, 2), Settle(k, other)])];
      ClaimWith(table, k, 1, 30_000, 60_000, gaps, 0).answer ==
        Some(Replay(Record(2, 60_000, Completed(other, 60_000))))
  {
    var table := map[k := Record(1, 0, InProgress)];
    var stmts := [Release(k), InsertClaim(k, 2), Settle(k, other)];
    var gaps := [Gap(0, []), Gap(0, stmts)];
    assert stmts[..2] == [Release(k), InsertClaim(k, 2)];
    assert stmts[..2][..1] == [Release(k)] && stmts[..2][..1][..0] == [];
    assert RunAll(table, stmts[..2][..1], 60_000) == map[];
    assert RunAll(table, stmts[..2], 60_000) == map[k := Record(2, 60_000, InProgress)];
    var taken := map[k := Record(2, 60_000, Completed(other, 60_000))];
    assert RunAll(table, stmts, 60_000) == taken;
    assert After(table, 60_000, GapAt(gaps, 0)) == table && After(table, 60_000, GapAt(gaps, 1)) == taken;
    assert GapAt(gaps, 2) == Gap(0, []) && After(taken, 60_000, GapAt(gaps, 2)) == taken;
  }

  class Store {
    const db: Database
    var clock: int
    ghost var ran: seq<Ran>

    constructor (db: Database, clock: int)
      ensures this.db == db && this.clock == clock && ran == []
    {
      this.db, this.clock, ran := db, clock, [];
    }

    method Wait(gap: Gap)
      modifies this`clock, db`keys
      ensures clock == old(clock) + gap.ms
      ensures db.keys == RunAll(old(db.keys), gap.stmts, clock)
    {
      clock := clock + gap.ms;
      for i := 0 to |gap.stmts|
        invariant clock == old(clock) + gap.ms
        invariant db.keys == RunAll(old(db.keys), gap.stmts[..i], clock)
      {
        db.keys := Execute(db.keys, gap.stmts[i], clock);
        assert gap.stmts[..i + 1][..i] == gap.stmts[..i];
      }
      assert gap.stmts[..|gap.stmts|] == gap.stmts;
    }

    /** One own statement; tells whether it affected a row. */
    method Issue(stmt: Statement) returns (affected: bool)
      modifies this`ran, db`keys
      ensures db.keys == Execute(old(db.keys), stmt, clock) && affected == Affects(old(db.keys), stmt)
      ensures ran == old(ran) + [Ran(stmt, old(db.keys), clock)]
    {
      affected := Affects(db.keys, stmt);
      ran := ran + [Ran(stmt, db.keys, clock)];
      db.keys := Execute(db.keys, stmt, clock);
    }

    /**
     * The one conditional UPDATE that reclaims a stale row; when somebody else was faster, another
     * look at the row, its fingerprint not compared again.
     */
    method ReclaimStale(k: Key, fingerprint: Fingerprint, threshold: int, gaps: seq<Gap>, g: nat)
      returns (r: Option<Claimed>)
      modifies this, db`keys
      ensures Tried(db.keys, clock, r) ==
        ReclaimWith(old(db.keys), k, fingerprint, threshold, old(clock), GapAt(gaps, g), GapAt(gaps, g + 1))
      ensures old(ran) <= ran && |ran| == |old(ran)| + 1
      ensures var own := ran[|old(ran)|];
        && own.stmt == Reclaim(k, fingerprint, threshold) && own.at >= old(clock)
        && (r.Some? ==> AnswerFits(r.value, db.keys, [own], k, fingerprint))
        && (r.None? ==> !TookEffect(own) && k !in db.keys)
      ensures r == Some(StillInProgress) ==> Unfinished(db.keys, k)
    {
      hide RunAll;
      Wait(GapAt(gaps, g));
      var reclaimed := Issue(Reclaim(k, fingerprint, threshold));
      if reclaimed { return Some(Proceed(db.keys[k])); }
      Wait(GapAt(gaps, g + 1));
      if k !in db.keys { return None; }
      return Some(if db.keys[k].progress.Completed? then Replay(db.keys[k]) else StillInProgress);
    }

    /** INSERT; failing that, look at the row; a stale one is reclaimed by one conditional UPDATE. */
    method TryClaim(k: Key, fingerprint: Fingerprint, staleTimeout: nat, gaps: seq<Gap>, g: nat)
      returns (r: Option<Claimed>)
      modifies this, db`keys
      ensures Tried(db.keys, clock, r) == TryClaimWith(old(db.keys), k, fingerprint, staleTimeout, old(clock), gaps, g)
      ensures old(ran) <= ran && |old(ran)| < |ran| <= |old(ran)| + 2
      ensures OwnStatements(ran[|old(ran)|..], k, fingerprint, staleTimeout)
      ensures r.Some? ==> AnswerFits(r.value, db.keys, ran[|old(ran)|..], k, fingerprint)
      ensures r.None? ==> k !in db.keys && forall x :: x in ran[|old(ran)|..] ==> !TookEffect(x)
      ensures r == Some(StillInProgress) ==> Unfinished(db.keys, k)
    {
      hide RunAll, ReclaimWith;
      var inserted := Issue(InsertClaim(k, fingerprint));
      if inserted { return Some(Proceed(db.keys[k])); }
      Wait(GapAt(gaps, g));
      if k !in db.keys { return None; }
      var existing := db.keys[k];
      if existing.fingerprint != fingerprint { return Some(Conflict); }
      if existing.progress.Completed? { return Some(Replay(existing)); }
      var threshold := clock - staleTimeout;
      if existing.createdAt < threshold {
        ghost var tried := ran[|old(ran)|..];
        r := ReclaimStale(k, fingerprint, threshold, gaps, g + 1);
        assert ran[|old(ran)|..] == tried + [ran[|ran| - 1]];
        if r.Some? { AnswerFitsMore(r.value, db.keys, tried, [ran[|ran| - 1]], k, fingerprint); }
        return;
      }
      return Some(StillInProgress);
    }

    /**
     * The claim: up to three tries.  It proceeds exactly when one of its own statements took
     * effect; on a settled row nobody purges meanwhile it never proceeds, and answers with the
     * stored response or a conflict; it gives up only on an unfinished row, or after finding the
     * slot empty each time; alone, it does what `ClaimAlone` says.
     */
    method Claim(k: Key, fingerprint: Fingerprint, staleTimeout: nat, gaps: seq<Gap>) returns (r: Claimed)
      modifies this, db`keys
      ensures Tried(db.keys, clock, Some(r)) ==
        ClaimWith(old(db.keys), k, fingerprint, staleTimeout, old(clock), gaps, 0)
      ensures old(ran) <= ran && |ran| <= |old(ran)| + 6
      ensures r.StillInProgress? && !Unfinished(db.keys, k) ==> |ran| >= |old(ran)| + 3
      ensures OwnStatements(ran[|old(ran)|..], k, fingerprint, staleTimeout)
      ensures AnswerFits(r, db.keys, ran[|old(ran)|..], k, fingerprint)
      ensures r.StillInProgress? ==> Unfinished(db.keys, k) || k !in db.keys
      ensures r.Replay? && NothingRemoved(gaps, k) ==> r.record.fingerprint == fingerprint
      ensures Answered(old(db.keys), k) && AllSpare(gaps, k, old(db.keys)[k]) ==>
        r == SettledAnswer(old(db.keys), k, fingerprint) && k in db.keys && db.keys[k] == old(db.keys)[k]
      ensures Quiet(gaps) ==>
        (db.keys, r) == ClaimAlone(old(db.keys), k, fingerprint, staleTimeout, old(clock)) && clock == old(clock)
    {
      hide ClaimAlone, ClaimStatement, AllSpare, Quiet, AnswerFits, TryClaimWith, NothingRemoved, RunAll, SettledAnswer;
      ghost var whole := ClaimWith(db.keys, k, fingerprint, staleTimeout, clock, gaps, 0);
      if Answered(db.keys, k) && AllSpare(gaps, k, db.keys[k]) {
        SettledIsAnswered(db.keys, k, fingerprint, staleTimeout, clock, gaps);
      }
      if Quiet(gaps) { QuietIsAlone(db.keys, k, fingerprint, staleTimeout, clock, gaps); }
      if NothingRemoved(gaps, k) { ClaimReplaysOwn(db.keys, k, fingerprint, staleTimeout, clock, gaps, 0); }
      for attempt := 0 to MAX_CLAIM_ATTEMPTS
        invariant old(ran) <= ran && |old(ran)| + attempt <= |ran| <= |old(ran)| + 2 * attempt
        invariant OwnStatements(ran[|old(ran)|..], k, fingerprint, staleTimeout)
        invariant forall x :: x in ran[|old(ran)|..] ==> !TookEffect(x)
        invariant attempt < MAX_CLAIM_ATTEMPTS ==>
          whole == ClaimWith(db.keys, k, fingerprint, staleTimeout, clock, gaps, attempt)
        invariant attempt == MAX_CLAIM_ATTEMPTS ==>
          k !in db.keys && whole == Tried(db.keys, clock, Some(StillInProgress))
      {
        ghost var before := ran;
        var tried := TryClaim(k, fingerprint, staleTimeout, gaps, 4 * attempt);
        assert ran[|old(ran)|..] == before[|old(ran)|..] + ran[|before|..];
        if tried.Some? {
          AnswerFitsMore(tried.value, db.keys, before[|old(ran)|..], ran[|before|..], k, fingerprint);
          return tried.value;
        }
        if attempt + 1 < MAX_CLAIM_ATTEMPTS { Wait(GapAt(gaps, 4 * attempt + 3)); }
      }
      NothingTried(db.keys, ran[|old(ran)|..], k, fingerprint);
      return StillInProgress;
    }

    /** Withdraws a claim nobody completed; a completed row is left alone. */
    method Release(k: Key)
      modifies this`ran, db`keys
      ensures db.keys == if Unfinished(old(db.keys), k) then old(db.keys) - {k} else old(db.keys)
      ensures ran == old(ran) + [Ran(Statement.Release(k), old(db.keys), clock)]
    {
      var _ := Issue(Statement.Release(k));
    }

    /** Stores the answer of a claim nobody completed yet; a completed row is left alone. */
    method Complete(k: Key, response: Response)
      modifies this`ran, db`keys
      ensures db.keys == if Unfinished(old(db.keys), k)
                         then old(db.keys)[k := old(db.keys)[k].(progress := Completed(response, clock))]
                         else old(db.keys)
      ensures ran == old(ran) + [Ran(Settle(k, response), old(db.keys), clock)]
    {
      var _ := Issue(Settle(k, response));
    }

    /**
     * The retention sweep, oldest rows first, `batchSize` at a time: removes exactly the completed
     * rows older than the cutoff.
     */
    method PurgeCompletedBefore(cutoff: int, batchSize: nat) returns (removed: nat)
      requires batchSize > 0
      modifies db`keys
      ensures forall k :: k in db.keys <==>
        k in old(db.keys)
        && !(old(db.keys)[k].progress.Completed? && old(db.keys)[k].progress.completedAt < cutoff)
      ensures forall k :: k in db.keys ==> db.keys[k] == old(db.keys)[k]
      ensures removed == |old(db.keys)| - |db.keys|
      ensures IsSweep(old(db.keys), db.keys, cutoff, clock)
    {
      hide IsSweep, Kept, IsOldest;
      removed := 0;
      var expired := CompletedBefore(cutoff);
      while true
        invariant Kept(db.keys, expired) == Kept(old(db.keys), expired)
        invariant removed + |Expired(db.keys, expired)| == |Expired(old(db.keys), expired)|
        decreases |Expired(db.keys, expired)|
      {
        var keys := Expired(db.keys, expired);
        var age := map k | k in keys :: db.keys[k].progress.completedAt;
        var batch := TakeOldest(keys, age, batchSize);
        RemoveBatch(db.keys, expired, batch, age, batchSize);
        db.keys := db.keys - batch;
        removed := removed + |batch|;
        if |batch| < batchSize { break; }
      }
      SweptRows(old(db.keys), expired);
      KeptIsSweep(old(db.keys), cutoff, clock);
    }
  }

  lemma AnswerFitsMore(r: Claimed, table: Table, before: seq<Ran>, own: seq<Ran>, k: Key, fingerprint: Fingerprint)
    requires AnswerFits(r, table, own, k, fingerprint) && forall x :: x in before ==> !TookEffect(x)
    ensures AnswerFits(r, table, before + own, k, fingerprint)
  {
    if own == [] { assert before + own == before; }
  }

  lemma NothingTried(table: Table, own: seq<Ran>, k: Key, fingerprint: Fingerprint)
    requires forall x :: x in own ==> !TookEffect(x)
    ensures AnswerFits(StillInProgress, table, own, k, fingerprint)
  {
  }
}
