/**
 * The idempotency table and every SQL statement that touches it, each one atomic.  Statements say
 * what one statement does to the one row of a key; who issues them, and when, is left open, so the
 * state machine built on them contains every interleaving of the claim, settle and purge code.
 */
module Idempotency {
  import opened Ledger
  import opened Requests

  type Fingerprint = nat

  datatype Body = PostedBody(tx: Id) | ErrorBody(code: nat)

  datatype Response = Response(status: int, body: Body)

  datatype Progress = InProgress | Completed(response: Response, completedAt: int)

  datatype Record = Record(fingerprint: Fingerprint, createdAt: int, progress: Progress)

  type Table = map<Key, Record>

  datatype Statement =
    | InsertClaim(key: Key, fingerprint: Fingerprint)
    | Reclaim(key: Key, fingerprint: Fingerprint, threshold: int)
    | Release(key: Key)
    | Settle(key: Key, response: Response)
    | Purge(key: Key, cutoff: int)

  const CREATED: int := 201

  /** What the posting transaction stores with the money. */
  function PostedResponse(tx: Id): Response {
    Response(CREATED, PostedBody(tx))
  }

  /** `replayableFailure` lets only client errors become a key's stored answer. */
  predicate ReplayableFailure(response: Response) {
    400 <= response.status < 500 && response.body.ErrorBody?
  }

  predicate Unfinished(table: Table, k: Key) {
    k in table && table[k].progress == InProgress
  }

  /** The row answers with a committed posting. */
  predicate AnswersPosting(table: Table, k: Key) {
    k in table && table[k].progress.Completed? && table[k].progress.response.status == CREATED
  }

  /** The WHERE clause of the conditional UPDATE that is the whole reclaim. */
  predicate Reclaimable(table: Table, k: Key, fingerprint: Fingerprint, threshold: int) {
    Unfinished(table, k) && table[k].fingerprint == fingerprint && table[k].createdAt < threshold
  }

  predicate Purgeable(table: Table, k: Key, cutoff: int) {
    k in table && table[k].progress.Completed? && table[k].progress.completedAt < cutoff
  }

  /** Does the statement insert, update or delete a row? */
  predicate Affects(table: Table, stmt: Statement) {
    match stmt
    case InsertClaim(k, _) => k !in table
    case Reclaim(k, fingerprint, threshold) => Reclaimable(table, k, fingerprint, threshold)
    case Release(k) => Unfinished(table, k)
    case Settle(k, _) => Unfinished(table, k)
    case Purge(k, cutoff) => Purgeable(table, k, cutoff)
  }

  function Execute(table: Table, stmt: Statement, now: int): Table {
    if !Affects(table, stmt) then table
    else
      match stmt
      case InsertClaim(k, fingerprint) => table[k := Record(fingerprint, now, InProgress)]
      case Reclaim(k, _, _) => table[k := table[k].(createdAt := now)]
      case Release(k) => table - {k}
      case Settle(k, response) => CompleteRow(table, k, response, now)
      case Purge(k, _) => table - {k}
  }

  /** UPDATE ... SET status = 'completed' WHERE ... AND status = 'in_progress'. */
  function CompleteRow(table: Table, k: Key, response: Response, now: int): Table {
    if Unfinished(table, k) then table[k := table[k].(progress := Completed(response, now))] else table
  }

  // ---------------------------------------------------------------- the life of one key

  /** What happened to a key's row, oldest first. */
  datatype KeyEvent = Proceeded(time: int) | Released | Purged(posting: bool)

  type KeyLog = seq<KeyEvent>

  function EventOf(table: Table, stmt: Statement, now: int): KeyLog {
    if !Affects(table, stmt) then []
    else
      match stmt
      case InsertClaim(_, _) => [Proceeded(now)]
      case Reclaim(_, _, _) => [Proceeded(now)]
      case Release(_) => [Released]
      case Settle(_, _) => []
      case Purge(k, _) => [Purged(AnswersPosting(table, k))]
  }

  function PurgeCount(log: KeyLog): nat {
    if |log| == 0 then 0
    else PurgeCount(log[..|log| - 1]) + if log[|log| - 1].Purged? then 1 else 0
  }

  /** Purges of a row that answered with a posting. */
  function PostingPurges(log: KeyLog): nat {
    if |log| == 0 then 0
    else PostingPurges(log[..|log| - 1]) + if log[|log| - 1] == Purged(true) then 1 else 0
  }

  lemma {:induction false} PostingPurgesArePurges(log: KeyLog)
    ensures PostingPurges(log) <= PurgeCount(log)
  {
    if |log| > 0 {
      PostingPurgesArePurges(log[..|log| - 1]);
    }
  }

  /** No release and no purge strictly between two positions of the log. */
  predicate Undisturbed(log: KeyLog, i: int, j: int) {
    forall m :: 0 <= i < m < j <= |log| && m < |log| ==> log[m].Proceeded?
  }

  /** Any two callers that proceed on one row are more than the stale timeout apart. */
  predicate Spaced(log: KeyLog, staleTimeout: nat) {
    forall i, j :: 0 <= i < j < |log| && log[i].Proceeded? && log[j].Proceeded? && Undisturbed(log, i, j)
      ==> log[j].time - log[i].time > staleTimeout
  }

  /** The row, if present, was created or moved by the log's last event. */
  predicate LogMatchesRow(table: Table, k: Key, log: KeyLog) {
    if k in table then |log| > 0 && log[|log| - 1] == Proceeded(table[k].createdAt)
    else |log| > 0 ==> !log[|log| - 1].Proceeded?
  }

  /** One statement issued at `now`, its threshold computed no later than `now`, keeps the spacing. */
  lemma StatementKeepsSpacing(table: Table, stmt: Statement, now: int, staleTimeout: nat, log: KeyLog)
    requires stmt.Reclaim? ==> stmt.threshold <= now - staleTimeout
    requires Spaced(log, staleTimeout) && LogMatchesRow(table, stmt.key, log)
    ensures var log' := log + EventOf(table, stmt, now);
      Spaced(log', staleTimeout) && LogMatchesRow(Execute(table, stmt, now), stmt.key, log')
  {
    var log' := log + EventOf(table, stmt, now);
    var n := |log|;
    forall i, j | 0 <= i < j < |log'| && log'[i].Proceeded? && log'[j].Proceeded? && Undisturbed(log', i, j)
      ensures log'[j].time - log'[i].time > staleTimeout
    {
      if j < n {
        assert forall m :: i < m < j ==> log'[m] == log[m];
        assert Undisturbed(log, i, j);
      } else {
        assert j == n && (i < n - 1 ==> log'[n - 1].Proceeded?);
        if i < n - 1 {
          assert forall m :: i < m < n ==> log'[m] == log[m];
          assert Undisturbed(log, i, n - 1);
        }
      }
    }
  }

  /** Of statements reclaiming one stale row, only the first to run moves it. */
  function ReclaimAll(table: Table, k: Key, fingerprint: Fingerprint, thresholds: seq<int>, times: seq<int>)
    : (r: (Table, nat))
    requires |thresholds| == |times|
  {
    if |thresholds| == 0 then (table, 0)
    else
      var n := |thresholds| - 1;
      var (before, moved) := ReclaimAll(table, k, fingerprint, thresholds[..n], times[..n]);
      var stmt := Reclaim(k, fingerprint, thresholds[n]);
      (Execute(before, stmt, times[n]), if Affects(before, stmt) then moved + 1 else moved)
  }

  /**
   * Concurrent reclaimers all computed their threshold before the first UPDATE ran.  Whatever the
   * order and number of their UPDATEs, exactly one of them moves the stale row.
   */
  lemma {:induction false} ExactlyOneReclaims(table: Table, k: Key, fingerprint: Fingerprint,
                                              thresholds: seq<int>, times: seq<int>)
    requires |thresholds| == |times| && |thresholds| > 0
    requires forall i :: 0 <= i < |thresholds| ==> Reclaimable(table, k, fingerprint, thresholds[i])
    requires forall i, j :: 0 <= i < |times| && 0 <= j < |thresholds| ==> thresholds[j] <= times[i]
    ensures var (after, moved) := ReclaimAll(table, k, fingerprint, thresholds, times);
      k in table && moved == 1 && after == table[k := table[k].(createdAt := times[0])]
  {
    var n := |thresholds| - 1;
    if n > 0 {
      ExactlyOneReclaims(table, k, fingerprint, thresholds[..n], times[..n]);
    } else {
      var stmt := Reclaim(k, fingerprint, thresholds[0]);
      assert ReclaimAll(table, k, fingerprint, thresholds[..n], times[..n]) == (table, 0);
      assert Affects(table, stmt);
      assert Execute(table, stmt, times[0]) == table[k := table[k].(createdAt := times[0])];
    }
  }

  /** Once completed, a row survives every statement except a purge that its age allows. */
  lemma CompletedRowIsStable(table: Table, stmt: Statement, now: int, k: Key)
    requires k in table && table[k].progress.Completed?
    ensures var after := Execute(table, stmt, now);
      if stmt.Purge? && stmt.key == k && table[k].progress.completedAt < stmt.cutoff
      then k !in after
      else k in after && after[k] == table[k]
  {
  }
}
