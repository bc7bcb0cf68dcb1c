/**
 * `TransferService.create`: reject what needs no database, then run the transaction up to
 * maxAttempts times, sleeping between retryable failures, and count what happened.
 */
module TransferService {
  import opened Backoff
  import opened Basics
  import opened Ledger
  import opened Requests
  import opened Idempotency
  import opened LedgerDatabase
  import MoneyText

  datatype Created =
    | TransferCompleted
    | Exhausted
    | Rethrown(failure: Failure)
    | InvalidAmount
    | SelfTransfer
    | NeverAttempted

  /** `Money.fromMinor` of an amount string. */
  function FromMinor(text: string): Option<int> {
    if MoneyText.Canonical(text) && MoneyText.Value(text) <= MAX_BIGINT then Some(MoneyText.Value(text)) else None
  }

  /** Of the texts a number has, exactly its decimal form is taken, and only from 1 to the bigint maximum. */
  lemma FromMinorTakes(n: nat, text: string)
    ensures FromMinor(text) == Some(n) <==> text == MoneyText.Decimal(n) && 0 < n <= MAX_BIGINT
  {
    if FromMinor(text).Some? {
      MoneyText.CanonicalPositive(text);
      MoneyText.DecimalOfValue(text);
    }
  }

  // ---------------------------------------------------------------- delays

  const DELAY_CAP: nat := 50

  ghost predicate AllDrawn(draws: nat -> Draw) {
    forall a :: Drawn(draws(a))
  }

  /** The sleeps after attempts 1 to n. */
  function Sleeps(base: nat, n: nat, draws: nat -> Draw): seq<int> {
    if n == 0 then [] else Sleeps(base, n - 1, draws) + [Delay(base, DELAY_CAP, n, draws(n))]
  }

  function Total(sleeps: seq<int>): int {
    if |sleeps| == 0 then 0 else Total(sleeps[..|sleeps| - 1]) + sleeps[|sleeps| - 1]
  }

  /** The unjittered delays together. */
  function SleepBudget(base: nat, n: nat): int {
    if n == 0 then 0 else SleepBudget(base, n - 1) + Unjittered(base, DELAY_CAP, n)
  }

  /** How many of the sleeps stay below their unjittered delay. */
  function ShortSleeps(base: nat, n: nat, draws: nat -> Draw): nat {
    if n == 0 then 0
    else
      ShortSleeps(base, n - 1, draws) +
      if Delay(base, DELAY_CAP, n, draws(n)) < Unjittered(base, DELAY_CAP, n) then 1 else 0
  }

  lemma TotalOneMore(sleeps: seq<int>, next: int)
    ensures Total(sleeps + [next]) == Total(sleeps) + next
  {
    assert (sleeps + [next])[..|sleeps|] == sleeps;
  }

  /**
   * The sleeps never exceed the budget, each short one leaves a millisecond of it at least, and all
   * of it is spent exactly when there is none.
   */
  lemma {:induction false} SleepsWithinBudget(base: nat, n: nat, draws: nat -> Draw)
    requires base > 0 && AllDrawn(draws)
    ensures 0 <= Total(Sleeps(base, n, draws)) <= SleepBudget(base, n) - ShortSleeps(base, n, draws)
    ensures Total(Sleeps(base, n, draws)) == SleepBudget(base, n) <==> ShortSleeps(base, n, draws) == 0
  {
    hide Delay, Unjittered, Drawn;
    if n > 0 {
      SleepsWithinBudget(base, n - 1, draws);
      DelayBounds(base, DELAY_CAP, n, draws(n));
      TotalOneMore(Sleeps(base, n - 1, draws), Delay(base, DELAY_CAP, n, draws(n)));
    }
  }

  lemma {:induction false} BudgetGrows(base: nat, n: nat, m: nat)
    requires base > 0 && n <= m
    ensures SleepBudget(base, n) <= SleepBudget(base, m)
  {
    if n < m {
      BudgetGrows(base, n, m - 1);
    }
  }

  /**
   * With the defaults (base 2 ms, 12 attempts, so at most 11 sleeps) a request never sleeps more
   * than 362 ms in total, for any jitter and whatever the rounding.
   */
  lemma DefaultSleepBound(n: nat, draws: nat -> Draw)
    requires n <= 11 && AllDrawn(draws)
    ensures Total(Sleeps(2, n, draws)) <= 362
  {
    SleepsWithinBudget(2, n, draws);
    BudgetGrows(2, n, 11);
    DefaultBudget();
  }

  /**
   * A full run of sleeps is 362 ms exactly when none is cut short, and each one cut short takes off a
   * millisecond at least: with all eleven cut short 351 ms remain at most.
   */
  lemma DefaultSleepsAre(draws: nat -> Draw)
    requires AllDrawn(draws)
    ensures Total(Sleeps(2, 11, draws)) == 362 <==> ShortSleeps(2, 11, draws) == 0
    ensures Total(Sleeps(2, 11, draws)) <= 362 - ShortSleeps(2, 11, draws)
    ensures ShortSleeps(2, 11, draws) == 11 ==> Total(Sleeps(2, 11, draws)) <= 351
  {
    SleepsWithinBudget(2, 11, draws);
    DefaultBudget();
  }

  lemma DefaultBudget()
    ensures SleepBudget(2, 11) == 362
  {
    LaterBudget(11);
  }

  lemma SmallCaps()
    ensures Unjittered(2, DELAY_CAP, 1) == 2 && Unjittered(2, DELAY_CAP, 2) == 4 && Unjittered(2, DELAY_CAP, 3) == 8
    ensures Unjittered(2, DELAY_CAP, 4) == 16 && Unjittered(2, DELAY_CAP, 5) == 32
  {
    assert Pow2(1) == 2 && Pow2(2) == 4 && Pow2(3) == 8 && Pow2(4) == 16;
  }

  lemma CapsReached(n: nat)
    requires 5 <= n
    ensures Unjittered(2, DELAY_CAP, n + 1) == 50
  {
    assert Pow2(5) == 32;
    PowGrows(5, n);
  }

  lemma FirstBudget()
    ensures SleepBudget(2, 5) == 62
  {
    hide Unjittered;
    SmallCaps();
    assert SleepBudget(2, 2) == 6 && SleepBudget(2, 4) == 30;
  }

  lemma {:induction false} LaterBudget(n: nat)
    requires 5 <= n
    ensures SleepBudget(2, n) == 62 + 50 * (n - 5)
  {
    hide Unjittered;
    if n == 5 {
      FirstBudget();
    } else {
      LaterBudget(n - 1);
      CapsReached(n - 1);
    }
  }

  lemma {:induction false} TopIsNeverShort(base: nat, n: nat, draws: nat -> Draw)
    requires base > 0 && forall a :: draws(a) == TOP_DRAW
    ensures ShortSleeps(base, n, draws) == 0
  {
    hide Delay, Unjittered, Factor, Drawn;
    if n > 0 {
      TopIsNeverShort(base, n - 1, draws);
      TopDrawIsOne();
      FullDelay(base, DELAY_CAP, n, draws(n));
    }
  }

  /** The bound is reached: with the largest double below one as every jitter value. */
  lemma DefaultSleepBoundReached()
    ensures var draws := (_: nat) => TOP_DRAW;
      AllDrawn(draws) && Total(Sleeps(2, 11, draws)) == 362
  {
    var draws := (_: nat) => TOP_DRAW;
    TopDrawIsOne();
    TopIsNeverShort(2, 11, draws);
    DefaultSleepsAre(draws);
  }

  // ---------------------------------------------------------------- the service

  class TransferMetrics {
    var completed: nat
    var exhausted: nat
    var retries: nat

    constructor ()
      ensures completed == exhausted == retries == 0
    {
      completed, exhausted, retries := 0, 0, 0;
    }

    method RecordCompleted()
      modifies this`completed
      ensures completed == old(completed) + 1
    {
      completed := completed + 1;
    }

    method RecordExhausted()
      modifies this`exhausted
      ensures exhausted == old(exhausted) + 1
    {
      exhausted := exhausted + 1;
    }

    method RecordRetry()
      modifies this`retries
      ensures retries == old(retries) + 1
    {
      retries := retries + 1;
    }
  }

  lemma SleepAppended(before: seq<int>, base: nat, n: nat, draws: nat -> Draw)
    requires n > 0
    ensures before + Sleeps(base, n, draws) ==
      (before + Sleeps(base, n - 1, draws)) + [Delay(base, DELAY_CAP, n, draws(n))]
  {
  }

  // ---------------------------------------------------------------- the course of one request

  /** What a request posts, what others commit before each attempt, and where each attempt fails. */
  datatype Course = Course(id: Id, req: Request, now: int, others: (nat, Tables) -> Tables, faults: nat -> Fault)

  /** The tables after `a` attempts. */
  function LeftBy(t: Tables, c: Course, a: nat): Tables {
    if a == 0 then t else Left(c.others(a, LeftBy(t, c, a - 1)), c.id, c.req, c.now, c.faults(a))
  }

  /** The tables attempt `a` finds. */
  function FoundBy(t: Tables, c: Course, a: nat): Tables
    requires a > 0
  {
    c.others(a, LeftBy(t, c, a - 1))
  }

  function AnswerOf(t: Tables, c: Course, a: nat): Result<(), Failure>
    requires a > 0
  {
    Answer(FoundBy(t, c, a), c.id, c.req, c.now, c.faults(a))
  }

  /** Attempt `a` posted, whatever its caller heard. */
  predicate AppliedBy(t: Tables, c: Course, a: nat)
    requires a > 0
  {
    Applied(FoundBy(t, c, a), c.id, c.req, c.now, c.faults(a))
  }

  /** Attempts 1 to `n` all failed in a way that is retried: SQLSTATE 40001 or 40P01. */
  predicate AllRetryable(t: Tables, c: Course, n: nat) {
    forall a :: 1 <= a <= n ==> AnswerOf(t, c, a) == Err(DatabaseError(true))
  }

  /** How `create` ends when this is the last attempt's answer. */
  function EndingOf(answer: Result<(), Failure>): Created {
    match answer
    case Ok(_) => TransferCompleted
    case Err(e) => if e == DatabaseError(true) then Exhausted else Rethrown(e)
  }

  lemma OneMoreRetryable(t: Tables, c: Course, n: nat)
    requires n > 0 && AllRetryable(t, c, n - 1) && AnswerOf(t, c, n) == Err(DatabaseError(true))
    ensures AllRetryable(t, c, n)
  {
    hide AnswerOf;
  }

  lemma OneMoreAttempt(t: Tables, c: Course, n: nat)
    requires n > 0
    ensures FoundBy(t, c, n) == c.others(n, LeftBy(t, c, n - 1))
    ensures LeftBy(t, c, n) == Left(FoundBy(t, c, n), c.id, c.req, c.now, c.faults(n))
    ensures AnswerOf(t, c, n) == Answer(FoundBy(t, c, n), c.id, c.req, c.now, c.faults(n))
  {
    hide Left, Answer;
  }

  /** What others commit keeps every ledger transaction, as the ledger does. */
  ghost predicate KeepsTransactions(others: (nat, Tables) -> Tables) {
    forall a: nat, t: Tables :: t.book.transactions.Keys <= others(a, t).book.transactions.Keys
  }

  lemma {:induction false} TransactionsKept(t: Tables, c: Course, a: nat, b: nat)
    requires KeepsTransactions(c.others) && a <= b
    ensures LeftBy(t, c, a).book.transactions.Keys <= LeftBy(t, c, b).book.transactions.Keys
  {
    hide CommitRequest;
    if a < b {
      TransactionsKept(t, c, a, b - 1);
      var found := FoundBy(t, c, b);
      assert LeftBy(t, c, b - 1).book.transactions.Keys <= found.book.transactions.Keys;
      if AppliedBy(t, c, b) { CommitAddsOnly(found, c.id, c.req, c.now); }
    }
  }

  lemma CommitAddsOnly(t: Tables, id: Id, req: Request, now: int)
    requires CommitRequest(t, id, req, now).Ok?
    ensures var after := CommitRequest(t, id, req, now).value;
      && after.book.transactions.Keys == t.book.transactions.Keys + {id}
      && id !in t.book.transactions && after != t
  {
  }

  lemma UsedIdIsRefused(found: Tables, id: Id, req: Request, now: int, fault: Fault)
    requires id in found.book.transactions
    ensures !Applied(found, id, req, now, fault)
    ensures Answer(found, id, req, now, fault).Err? && Left(found, id, req, now, fault) == found
  {
    hide CommitRequest;
    if CommitRequest(found, id, req, now).Ok? { CommitAddsOnly(found, id, req, now); }
  }

  lemma AppliedLeavesId(t: Tables, c: Course, a: nat)
    requires 1 <= a && AppliedBy(t, c, a)
    ensures c.id in LeftBy(t, c, a).book.transactions
  {
    hide CommitRequest, LeftBy, FoundBy, AnswerOf, Answer;
    OneMoreAttempt(t, c, a);
    CommitAddsOnly(FoundBy(t, c, a), c.id, c.req, c.now);
  }

  /** From the attempt that posted on, every attempt finds the id used. */
  lemma FindsIdUsed(t: Tables, c: Course, a: nat, b: nat)
    requires KeepsTransactions(c.others) && 1 <= a < b && AppliedBy(t, c, a)
    ensures c.id in FoundBy(t, c, b).book.transactions
  {
    hide AppliedBy, LeftBy;
    AppliedLeavesId(t, c, a);
    TransactionsKept(t, c, a, b - 1);
    assert LeftBy(t, c, b - 1).book.transactions.Keys <= FoundBy(t, c, b).book.transactions.Keys;
  }

  /**
   * One `create` posts at most once.  Even where an attempt took effect, its answer was lost and
   * the error was retried, every later attempt finds its id used, is refused and leaves the tables
   * as it found them.
   */
  lemma PostsAtMostOnce(t: Tables, c: Course, a: nat, b: nat)
    requires KeepsTransactions(c.others) && 1 <= a < b && AppliedBy(t, c, a)
    ensures !AppliedBy(t, c, b) && AnswerOf(t, c, b).Err? && LeftBy(t, c, b) == FoundBy(t, c, b)
  {
    hide Applied, Answer, Left, LeftBy, FoundBy;
    FindsIdUsed(t, c, a, b);
    OneMoreAttempt(t, c, b);
    UsedIdIsRefused(FoundBy(t, c, b), c.id, c.req, c.now, c.faults(b));
  }

  /** The error of a lost COMMIT answer is the client's own, never one of the two retryable SQLSTATEs. */
  ghost predicate LostIsFinal(faults: nat -> Fault) {
    forall a :: faults(a).CommitLost? ==> !faults(a).retryable
  }

  /** The tables before attempt `a` if this request never commits anything. */
  function OthersOnly(t: Tables, c: Course, a: nat): Tables {
    if a == 0 then t else c.others(a, OthersOnly(t, c, a - 1))
  }

  lemma {:induction false} RetriedLeaveNothing(t: Tables, c: Course, n: nat)
    requires AllRetryable(t, c, n) && LostIsFinal(c.faults)
    ensures LeftBy(t, c, n) == OthersOnly(t, c, n)
  {
    hide CommitRequest;
    if n > 0 {
      RetriedLeaveNothing(t, c, n - 1);
      assert AnswerOf(t, c, n) == Err(DatabaseError(true));
    }
  }

  /**
   * A `create` that ends in an error changed the tables if and only if its last COMMIT took effect
   * and the answer to it was lost; and then it changed them by exactly its one posting.
   */
  lemma ErrorChangesIffLost(t: Tables, c: Course, attempts: nat)
    requires attempts > 0 && AllRetryable(t, c, attempts - 1) && LostIsFinal(c.faults)
    requires EndingOf(AnswerOf(t, c, attempts)) != TransferCompleted
    ensures var found := OthersOnly(t, c, attempts);
      var lost := c.faults(attempts).CommitLost? && CommitRequest(found, c.id, c.req, c.now).Ok?;
      && (LeftBy(t, c, attempts) != found <==> lost)
      && (lost ==> LeftBy(t, c, attempts) == CommitRequest(found, c.id, c.req, c.now).value)
  {
    hide CommitRequest;
    RetriedLeaveNothing(t, c, attempts - 1);
    var found := OthersOnly(t, c, attempts);
    if CommitRequest(found, c.id, c.req, c.now).Ok? { CommitAddsOnly(found, c.id, c.req, c.now); }
  }

  // ---------------------------------------------------------------- exactly which attempts are retried

  /** The attempt on `found` is undone by SQLSTATE 40001 or 40P01, in its body or at its COMMIT. */
  predicate Undone(found: Tables, id: Id, req: Request, now: int, fault: Fault) {
    || (fault.BeforeCommit? && fault.retryable)
    || (fault.AtCommit? && fault.retryable && CommitRequest(found, id, req, now).Ok?)
  }

  /** Attempt `a` is undone that way, on the tables that others alone leave it. */
  predicate UndoneAt(t: Tables, c: Course, a: nat) {
    Undone(OthersOnly(t, c, a), c.id, c.req, c.now, c.faults(a))
  }

  predicate UndoneUpTo(t: Tables, c: Course, n: nat) {
    forall a :: 1 <= a <= n ==> UndoneAt(t, c, a)
  }

  /** An undone attempt leaves what it found and is answered retryably; no other is, a lost COMMIT aside. */
  lemma UndoneIsRetryable(found: Tables, id: Id, req: Request, now: int, fault: Fault)
    requires !fault.CommitLost?
    ensures Undone(found, id, req, now, fault) <==> Answer(found, id, req, now, fault) == Err(DatabaseError(true))
    ensures Undone(found, id, req, now, fault) ==> Left(found, id, req, now, fault) == found
  {
    hide CommitRequest;
    if CommitRequest(found, id, req, now).Err? { NeverRetryable(found, id, req, now); }
  }

  /** No business rejection is a retryable database error. */
  lemma NeverRetryable(found: Tables, id: Id, req: Request, now: int)
    requires CommitRequest(found, id, req, now).Err?
    ensures !CommitRequest(found, id, req, now).error.DatabaseError?
  {
    hide RunBody;
  }

  /** Undone attempts leave only what others commit. */
  lemma {:induction false} UndoneLeaveNothing(t: Tables, c: Course, n: nat)
    requires UndoneUpTo(t, c, n)
    ensures LeftBy(t, c, n) == OthersOnly(t, c, n)
    ensures AllRetryable(t, c, n)
  {
    hide CommitRequest, Answer, Left, Undone;
    if n > 0 {
      UndoneLeaveNothing(t, c, n - 1);
      var found := OthersOnly(t, c, n);
      assert UndoneAt(t, c, n);
      UndoneHasNoLoss(found, c.id, c.req, c.now, c.faults(n));
      UndoneIsRetryable(found, c.id, c.req, c.now, c.faults(n));
      OneMoreAttempt(t, c, n);
    }
  }

  lemma UndoneHasNoLoss(found: Tables, id: Id, req: Request, now: int, fault: Fault)
    requires Undone(found, id, req, now, fault)
    ensures !fault.CommitLost?
  {
  }

  /**
   * How a request ends whose attempts 1 to `n` are undone and whose attempt `n + 1` is not: at that
   * attempt, completed if its body is sound and its COMMIT answered, rejected if its body is not sound,
   * and otherwise rethrowing a database error that is not retried.
   */
  ghost predicate EndsAfter(t: Tables, c: Course, n: nat, attempts: nat, created: Created) {
    var fault, sound := c.faults(n + 1), CommitRequest(OthersOnly(t, c, n + 1), c.id, c.req, c.now);
    && attempts == n + 1
    && (created == TransferCompleted <==> fault.NoFault? && sound.Ok?)
    && (!fault.BeforeCommit? && sound.Err? ==> created == Rethrown(sound.error))
    && (fault.BeforeCommit? || (!fault.NoFault? && sound.Ok?) ==> created == Rethrown(DatabaseError(false)))
  }

  /**
   * Retryable failures are retried, and only they are: `create` ends at its first attempt that is not
   * undone, and is exhausted exactly if all `maxAttempts` are.
   */
  ghost predicate RetriesWhileUndone(t: Tables, c: Course, maxAttempts: nat, attempts: nat, created: Created) {
    && (forall n: nat :: n < maxAttempts && UndoneUpTo(t, c, n) && !UndoneAt(t, c, n + 1) ==>
          EndsAfter(t, c, n, attempts, created))
    && (UndoneUpTo(t, c, maxAttempts) <==> created == Exhausted)
    && (created == Exhausted ==> attempts == maxAttempts)
  }

  lemma EndsAtFirstNotUndone(t: Tables, c: Course, attempts: nat, created: Created, n: nat)
    requires LostIsFinal(c.faults) && attempts >= 1
    requires AllRetryable(t, c, attempts - 1) && created == EndingOf(AnswerOf(t, c, attempts))
    requires UndoneUpTo(t, c, n) && !UndoneAt(t, c, n + 1) && attempts > n
    ensures EndsAfter(t, c, n, attempts, created)
  {
    hide CommitRequest, Answer, Left, UndoneAt, LostIsFinal;
    UndoneLeaveNothing(t, c, n);
    OneMoreAttempt(t, c, n + 1);
    FinalAnswer(t, c, n + 1);
  }

  lemma AllRetryableAreUndone(t: Tables, c: Course, n: nat)
    requires LostIsFinal(c.faults) && AllRetryable(t, c, n)
    ensures UndoneUpTo(t, c, n)
  {
    hide CommitRequest, Answer, Left, LeftBy, FoundBy, UndoneAt, LostIsFinal;
    forall a | 1 <= a <= n
      ensures UndoneAt(t, c, a)
    {
      if !UndoneAt(t, c, a) {
        RetriedLeaveNothing(t, c, a - 1);
        OneMoreAttempt(t, c, a);
        FinalAnswer(t, c, a);
      }
    }
  }

  lemma RetriedWhileUndone(t: Tables, c: Course, maxAttempts: nat, attempts: nat, created: Created)
    requires LostIsFinal(c.faults) && 1 <= attempts <= maxAttempts
    requires AllRetryable(t, c, attempts - 1) && created == EndingOf(AnswerOf(t, c, attempts))
    requires created == Exhausted ==> attempts == maxAttempts
    ensures RetriesWhileUndone(t, c, maxAttempts, attempts, created)
  {
    hide CommitRequest, AnswerOf, FoundBy, LeftBy, UndoneAt, LostIsFinal, EndsAfter, AllRetryable;
    forall n: nat | n < maxAttempts && UndoneUpTo(t, c, n) && !UndoneAt(t, c, n + 1)
      ensures EndsAfter(t, c, n, attempts, created)
    {
      UndoneUpToEnds(t, c, n, attempts, created, maxAttempts);
      EndsAtFirstNotUndone(t, c, attempts, created, n);
    }
    if created == Exhausted {
      OneMoreRetryable(t, c, attempts);
      AllRetryableAreUndone(t, c, attempts);
    }
    if UndoneUpTo(t, c, maxAttempts) { UndoneUpToEnds(t, c, maxAttempts, attempts, created, maxAttempts); }
  }

  /** `create` does not end before an attempt that is not undone. */
  lemma UndoneUpToEnds(t: Tables, c: Course, n: nat, attempts: nat, created: Created, maxAttempts: nat)
    requires 1 <= attempts <= maxAttempts && n <= maxAttempts && UndoneUpTo(t, c, n)
    requires created == EndingOf(AnswerOf(t, c, attempts))
    requires created == Exhausted ==> attempts == maxAttempts
    ensures attempts <= n ==> created == Exhausted
    ensures n < maxAttempts ==> attempts > n
  {
    hide AnswerOf, UndoneUpTo;
    UndoneLeaveNothing(t, c, n);
    if attempts <= n { assert AnswerOf(t, c, attempts) == Err(DatabaseError(true)); }
  }

  /** The answer to an attempt that is not undone, on the tables that others alone leave. */
  lemma FinalAnswer(t: Tables, c: Course, a: nat)
    requires LostIsFinal(c.faults) && !UndoneAt(t, c, a)
    ensures var found, fault := OthersOnly(t, c, a), c.faults(a);
      var sound := CommitRequest(found, c.id, c.req, c.now);
      var answer := Answer(found, c.id, c.req, c.now, fault);
      && answer != Err(DatabaseError(true))
      && (answer.Ok? <==> fault.NoFault? && sound.Ok?)
      && (!fault.BeforeCommit? && sound.Err? ==> answer == Err(sound.error))
      && (fault.BeforeCommit? || (!fault.NoFault? && sound.Ok?) ==> answer == Err(DatabaseError(false)))
  {
    hide CommitRequest, OthersOnly;
    var found := OthersOnly(t, c, a);
    if CommitRequest(found, c.id, c.req, c.now).Err? { NeverRetryable(found, c.id, c.req, c.now); }
  }

  // ---------------------------------------------------------------- what a completed transfer did

  /**
   * The tables after a transfer that was answered: the amount moved, one event, and the key answered
   * with this transfer.
   */
  ghost predicate Transferred(before: Tables, after: Tables, id: Id, principal: Principal, source: Id,
                              destination: Id, amount: int, key: Option<Key>, now: int)
  {
    && TransferMoves(before.book, after.book, id, principal, source, destination, amount)
    && after.events == before.events + [id]
    && (key.None? ==> after.keys == before.keys)
    && (key.Some? ==>
          && key.value in before.keys && before.keys[key.value].progress == InProgress
          && after.keys == before.keys[key.value := before.keys[key.value].(
               progress := Completed(Response(201, PostedBody(id)), now))])
  }

  lemma CommitTransfers(t: Tables, id: Id, req: Request, now: int)
    requires req.Transfer? && WellFormed(req) && CommitRequest(t, id, req, now).Ok?
    ensures Transferred(t, CommitRequest(t, id, req, now).value, id, req.principal, req.source, req.destination,
                        req.amount, req.key, now)
  {
    hide RunBody, TransferMoves;
    TransferLeaves(t.book, id, req);
  }

  lemma CompletedTransfers(t: Tables, c: Course, attempts: nat)
    requires attempts > 0 && c.req.Transfer? && WellFormed(c.req)
    requires EndingOf(AnswerOf(t, c, attempts)) == TransferCompleted
    ensures Transferred(FoundBy(t, c, attempts), LeftBy(t, c, attempts), c.id, c.req.principal, c.req.source,
                        c.req.destination, c.req.amount, c.req.key, c.now)
  {
    hide CommitRequest, Transferred, LeftBy, FoundBy;
    OneMoreAttempt(t, c, attempts);
    CommitTransfers(FoundBy(t, c, attempts), c.id, c.req, c.now);
  }

  lemma AmountIs(text: string, amount: int)
    requires FromMinor(text) == Some(amount)
    ensures 0 < amount <= MAX_BIGINT && forall n: nat :: text == MoneyText.Decimal(n) ==> n == amount
  {
    MoneyText.CanonicalPositive(text);
    forall n: nat | text == MoneyText.Decimal(n)
      ensures n == amount
    {
      FromMinorTakes(n, text);
    }
  }

  lemma EndingIs(answer: Result<(), Failure>)
    ensures EndingOf(answer) == TransferCompleted <==> answer.Ok?
    ensures EndingOf(answer) == Exhausted <==> answer == Err(DatabaseError(true))
  {
  }

  class Service {
    const maxAttempts: nat
    const baseRetryDelayMs: nat
    const metrics: TransferMetrics
    var slept: seq<int>

    constructor (maxAttempts: nat, baseRetryDelayMs: nat)
      ensures this.maxAttempts == maxAttempts && this.baseRetryDelayMs == baseRetryDelayMs
      ensures fresh(metrics) && slept == []
    {
      this.maxAttempts := maxAttempts;
      this.baseRetryDelayMs := baseRetryDelayMs;
      metrics := new TransferMetrics();
      slept := [];
    }

    /** One attempt, on the tables the others leave it. */
    method RunAfter(db: Database, found: Tables, id: Id, req: Request, now: int, fault: Fault)
      returns (r: Result<(), Failure>)
      modifies db
      ensures db.runs == old(db.runs) + 1
      ensures db.TablesNow() == Left(found, id, req, now, fault)
      ensures r == Answer(found, id, req, now, fault)
    {
      hide Left, Answer;
      db.OthersCommit(found);
      r := db.RunTransaction(id, req, now, fault);
    }

    /** Count the retry, then sleep. */
    method RecordAndSleep(delayMs: int)
      modifies this`slept, metrics`retries
      ensures slept == old(slept) + [delayMs] && metrics.retries == old(metrics.retries) + 1
    {
      metrics.RecordRetry();
      slept := slept + [delayMs];
    }

    /**
     * The attempt loop.  `attempts` transactions are run, all but the last of them answered
     * retryably, while other transactions commit anything between them.
     */
    method Attempts(db: Database, c: Course, draws: nat -> Draw) returns (created: Created, ghost attempts: nat)
      requires maxAttempts > 0
      modifies this`slept, metrics, db
      ensures 1 <= attempts <= maxAttempts && db.runs == old(db.runs) + attempts
      ensures AllRetryable(old(db.TablesNow()), c, attempts - 1)
      ensures created == EndingOf(AnswerOf(old(db.TablesNow()), c, attempts))
      ensures db.TablesNow() == LeftBy(old(db.TablesNow()), c, attempts)
      ensures created == Exhausted ==> attempts == maxAttempts
      ensures metrics.completed == old(metrics.completed) + if created == TransferCompleted then 1 else 0
      ensures metrics.exhausted == old(metrics.exhausted) + if created == Exhausted then 1 else 0
      ensures metrics.retries == old(metrics.retries) + attempts - 1
      ensures slept == old(slept) + Sleeps(baseRetryDelayMs, attempts - 1, draws)
    {
      ghost var start := db.TablesNow();
      attempts := 0;
      assert slept == slept + Sleeps(baseRetryDelayMs, 0, draws) && start == LeftBy(start, c, 0);
      assert AllRetryable(start, c, 0);
      hide Left, Answer, LeftBy, FoundBy, AnswerOf, AllRetryable, Sleeps, Delay, EndingOf;
      for attempt := 1 to maxAttempts + 1
        invariant attempts == attempt - 1
        invariant db.runs == old(db.runs) + attempts && db.TablesNow() == LeftBy(start, c, attempts)
        invariant AllRetryable(start, c, attempts)
        invariant metrics.completed == old(metrics.completed) && metrics.exhausted == old(metrics.exhausted)
        invariant metrics.retries == old(metrics.retries) + attempts
        invariant slept == old(slept) + Sleeps(baseRetryDelayMs, attempts, draws)
        invariant attempt > 1 ==> attempt <= maxAttempts
      {
        OneMoreAttempt(start, c, attempt);
        var r := RunAfter(db, c.others(attempt, db.TablesNow()), c.id, c.req, c.now, c.faults(attempt));
        attempts := attempt;
        created := EndingOf(r);
        EndingIs(r);
        if r.Ok? {
          metrics.RecordCompleted();
          return;
        }
        if r.error != DatabaseError(true) { return; }
        if attempt == maxAttempts {
          metrics.RecordExhausted();
          return;
        }
        OneMoreRetryable(start, c, attempt);
        SleepAppended(old(slept), baseRetryDelayMs, attempt, draws);
        RecordAndSleep(Delay(baseRetryDelayMs, DELAY_CAP, attempt, draws(attempt)));
      }
    }

    /**
     * The whole request.  How it ends is what its last attempt was answered; what it changed is
     * what its attempts left.  A request that completes has posted; one that ends in an error has
     * posted exactly if its last COMMIT took effect and the answer was lost.
     */
    method Create(db: Database, source: Id, destination: Id, amountText: string, principal: Principal,
                  key: Option<Key>, id: Id, now: int, others: (nat, Tables) -> Tables, faults: nat -> Fault,
                  draws: nat -> Draw)
      returns (created: Created, ghost attempts: nat)
      modifies this`slept, metrics, db
      ensures attempts <= maxAttempts && db.runs == old(db.runs) + attempts
      ensures attempts == 0 <==> FromMinor(amountText).None? || source == destination || maxAttempts == 0
      ensures attempts == 0 ==>
        && db.TablesNow() == old(db.TablesNow()) && slept == old(slept)
        && created == (if FromMinor(amountText).None? then InvalidAmount
                       else if source == destination then SelfTransfer else NeverAttempted)
      ensures attempts > 0 ==>
        var req := Transfer(principal, source, destination, FromMinor(amountText).value, key);
        var c := Course(id, req, now, others, faults);
        && AllRetryable(old(db.TablesNow()), c, attempts - 1)
        && created == EndingOf(AnswerOf(old(db.TablesNow()), c, attempts))
        && db.TablesNow() == LeftBy(old(db.TablesNow()), c, attempts)
        && slept == old(slept) + Sleeps(baseRetryDelayMs, attempts - 1, draws)
        && (created != TransferCompleted && LostIsFinal(faults) ==>
              var found := OthersOnly(old(db.TablesNow()), c, attempts);
              db.TablesNow() != found <==> faults(attempts).CommitLost? && CommitRequest(found, id, c.req, now).Ok?)
        && (LostIsFinal(faults) ==> RetriesWhileUndone(old(db.TablesNow()), c, maxAttempts, attempts, created))
        && (created == TransferCompleted ==>
              forall n: nat :: amountText == MoneyText.Decimal(n) ==>
                Transferred(FoundBy(old(db.TablesNow()), c, attempts), db.TablesNow(), id, principal, source,
                            destination, n, key, now))
      ensures created == Exhausted ==> attempts == maxAttempts
      ensures metrics.completed == old(metrics.completed) + if created == TransferCompleted then 1 else 0
      ensures metrics.exhausted == old(metrics.exhausted) + if created == Exhausted then 1 else 0
      ensures metrics.retries == old(metrics.retries) + if attempts == 0 then 0 else attempts - 1
    {
      hide LeftBy, FoundBy, AnswerOf, AllRetryable, Sleeps, FromMinor, CommitRequest, OthersOnly, RetriesWhileUndone;
      hide Transferred;
      var amount := FromMinor(amountText);
      if amount.None? { return InvalidAmount, 0; }
      if source == destination { return SelfTransfer, 0; }
      if maxAttempts == 0 { return NeverAttempted, 0; }
      var c := Course(id, Transfer(principal, source, destination, amount.value, key), now, others, faults);
      ghost var start := db.TablesNow();
      created, attempts := Attempts(db, c, draws);
      if created != TransferCompleted && LostIsFinal(faults) { ErrorChangesIffLost(start, c, attempts); }
      AmountIs(amountText, amount.value);
      if LostIsFinal(faults) { RetriedWhileUndone(start, c, maxAttempts, attempts, created); }
      if created == TransferCompleted { CompletedTransfers(start, c, attempts); }
    }
  }
}
