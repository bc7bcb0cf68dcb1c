/**
 * `POST /v1/transfers`: claim the key, create the transfer, settle the key.  `HandleAlone` is the
 * whole request without interference; `RetryGetsTheSameAnswer` is what the key is for.
 */
module TransferRoutes {
  import opened Backoff
  import opened Basics
  import opened Ledger
  import opened Requests
  import opened Idempotency
  import opened LedgerDatabase
  import opened IdempotencyStore
  import opened TransferService

  datatype Call = Call(source: Id, destination: Id, amountText: string, principal: Principal, fingerprint: Fingerprint)

  // ---------------------------------------------------------------- answers

  /** The status the error handler gives each failure. */
  function StatusOf(created: Created): int {
    match created
    case TransferCompleted => CREATED
    case Exhausted => 503
    case InvalidAmount => 400
    case SelfTransfer => 400
    case NeverAttempted => 500
    case Rethrown(KeyNotHeld) => 409
    case Rethrown(DatabaseError(_)) => 500
    case Rethrown(Business(AccountNotFound)) => 404
    case Rethrown(Business(AccountNotActive)) => 409
    case Rethrown(Business(CurrencyMismatch)) => 400
    case Rethrown(Business(InsufficientFunds)) => 409
    case Rethrown(Business(TreasuryNotFound)) => 500
    case Rethrown(Business(Rejected(_))) => 500
  }

  /** The codes in the error bodies. */
  const RETRY_EXHAUSTED: nat := 1
  const INVALID_AMOUNT: nat := 2
  const SELF_TRANSFER: nat := 3
  const INTERNAL_ERROR: nat := 4
  const IN_PROGRESS: nat := 5
  const ACCOUNT_NOT_FOUND: nat := 6
  const ACCOUNT_NOT_ACTIVE: nat := 7
  const CURRENCY_MISMATCH: nat := 8
  const INSUFFICIENT_FUNDS: nat := 9
  const TREASURY_NOT_FOUND: nat := 10
  const KEY_CONFLICT: nat := 11

  function CodeOf(created: Created): nat
    requires created != TransferCompleted
  {
    match created
    case Exhausted => RETRY_EXHAUSTED
    case InvalidAmount => INVALID_AMOUNT
    case SelfTransfer => SELF_TRANSFER
    case NeverAttempted => INTERNAL_ERROR
    case Rethrown(KeyNotHeld) => IN_PROGRESS
    case Rethrown(DatabaseError(_)) => INTERNAL_ERROR
    case Rethrown(Business(AccountNotFound)) => ACCOUNT_NOT_FOUND
    case Rethrown(Business(AccountNotActive)) => ACCOUNT_NOT_ACTIVE
    case Rethrown(Business(CurrencyMismatch)) => CURRENCY_MISMATCH
    case Rethrown(Business(InsufficientFunds)) => INSUFFICIENT_FUNDS
    case Rethrown(Business(TreasuryNotFound)) => TREASURY_NOT_FOUND
    case Rethrown(Business(Rejected(_))) => INTERNAL_ERROR
  }

  const IN_PROGRESS_RESPONSE := Response(409, ErrorBody(IN_PROGRESS))
  const CONFLICT_RESPONSE := Response(409, ErrorBody(KEY_CONFLICT))

  function ResponseOf(created: Created, id: Id): Response {
    if created == TransferCompleted then PostedResponse(id) else Response(StatusOf(created), ErrorBody(CodeOf(created)))
  }

  /** An `IdempotencyError`: the claim is no longer this request's to settle. */
  predicate LostClaim(created: Created) {
    created == Rethrown(KeyNotHeld)
  }

  // ---------------------------------------------------------------- the request without interference

  function RequestOf(call: Call, key: Option<Key>): Request
    requires FromMinor(call.amountText).Some?
  {
    Transfer(call.principal, call.source, call.destination, FromMinor(call.amountText).value, key)
  }

  /** `create` when its first attempt is its last, and that attempt meets `fault`. */
  function CreateAlone(t: Tables, call: Call, key: Option<Key>, id: Id, now: int, fault: Fault): (Tables, Created) {
    if FromMinor(call.amountText).None? then (t, InvalidAmount)
    else if call.source == call.destination then (t, SelfTransfer)
    else
      var req := RequestOf(call, key);
      (Left(t, id, req, now, fault), EndingOf(Answer(t, id, req, now, fault)))
  }

  /** A deterministic rejection becomes the key's answer; anything else frees the key. */
  function Settled(keys: Table, k: Key, created: Created, id: Id, now: int): Table {
    if created == TransferCompleted || LostClaim(created) then keys
    else if ReplayableFailure(ResponseOf(created, id)) then CompleteRow(keys, k, ResponseOf(created, id), now)
    else if Unfinished(keys, k) then keys - {k}
    else keys
  }

  /** The answer a claim already gives, unless the request is to proceed. */
  function ReplyOf(claimed: Claimed): Option<Response> {
    match claimed
    case Conflict => Some(CONFLICT_RESPONSE)
    case StillInProgress => Some(IN_PROGRESS_RESPONSE)
    case Replay(record) =>
      Some(if record.progress.Completed? then record.progress.response else IN_PROGRESS_RESPONSE)
    case Proceed(_) => None
  }

  /** The whole request, undisturbed. */
  function HandleAlone(t: Tables, call: Call, k: Key, staleTimeout: nat, id: Id, now: int, fault: Fault)
    : (Tables, Response)
  {
    var (keys, claimed) := ClaimAlone(t.keys, k, call.fingerprint, staleTimeout, now);
    match ReplyOf(claimed)
    case Some(reply) => (t, reply)
    case None =>
      var (after, created) := CreateAlone(t.(keys := keys), call, Some(k), id, now, fault);
      (after.(keys := Settled(after.keys, k, created, id, now)), ResponseOf(created, id))
  }

  predicate ClaimProceeds(t: Tables, call: Call, k: Key, staleTimeout: nat, now: int) {
    ClaimAlone(t.keys, k, call.fingerprint, staleTimeout, now).1.Proceed?
  }

  /** The request, once it has its key, posts at COMMIT and is never told. */
  predicate LosesAnswer(t: Tables, call: Call, k: Key, staleTimeout: nat, id: Id, now: int, fault: Fault) {
    fault.CommitLost? && HandleAlone(t, call, k, staleTimeout, id, now, NoFault).1 == PostedResponse(id)
  }

  predicate AnsweredInRow(t: Tables, call: Call, k: Key, response: Response, now: int) {
    && k in t.keys && t.keys[k].fingerprint == call.fingerprint
    && t.keys[k].progress == Completed(response, now)
  }

  /**
   * How a request that owns its key ends.  Below 500 the row holds its very answer, and the book
   * changed exactly if that is 201.  At 500 and above the key is free again and nothing else
   * changed, unless the answer of an effective COMMIT was lost: then the row already holds the 201
   * of that posting.
   */
  lemma ProceededEnds(t: Tables, call: Call, k: Key, staleTimeout: nat, id: Id, now: int, fault: Fault)
    requires ClaimProceeds(t, call, k, staleTimeout, now)
    ensures var (after, response) := HandleAlone(t, call, k, staleTimeout, id, now, fault);
      if LosesAnswer(t, call, k, staleTimeout, id, now, fault) then
        && response.status >= 500 && AnsweredInRow(after, call, k, PostedResponse(id), now)
        && after == HandleAlone(t, call, k, staleTimeout, id, now, NoFault).0 && after.book != t.book
      else if response.status < 500 then
        && AnsweredInRow(after, call, k, response, now)
        && (response.status == CREATED <==> after.book != t.book)
        && (response.status != CREATED ==> after == t.(keys := after.keys))
      else after == t.(keys := t.keys - {k})
  {
    hide RunBody;
    var (keys, claimed) := ClaimAlone(t.keys, k, call.fingerprint, staleTimeout, now);
    assert Unfinished(keys, k) && keys - {k} == t.keys - {k};
    if FromMinor(call.amountText).Some? {
      var req := RequestOf(call, Some(k));
      if RunBody(t.book, id, req).Ok? { PostingChangesBook(t.book, id, req); }
    }
  }

  lemma PostingChangesBook(book: Book, id: Id, req: Request)
    requires RunBody(book, id, req).Ok?
    ensures RunBody(book, id, req).value != book
  {
    assert id !in book.transactions && id in RunBody(book, id, req).value.transactions;
  }

  /**
   * Whatever a request was answered, short of "in progress" and of server errors, sending it again
   * with its key is answered the same and changes nothing at all, whenever that is, whatever id the
   * retry draws and whatever failure waits for it.
   */
  lemma RetryGetsTheSameAnswer(t: Tables, call: Call, k: Key, staleTimeout: nat, id: Id, now: int, fault: Fault,
                               retryId: Id, later: int, retryFault: Fault)
    requires HandleAlone(t, call, k, staleTimeout, id, now, fault).1.status < 500
    requires HandleAlone(t, call, k, staleTimeout, id, now, fault).1 != IN_PROGRESS_RESPONSE
    ensures var (after, response) := HandleAlone(t, call, k, staleTimeout, id, now, fault);
      HandleAlone(after, call, k, staleTimeout, retryId, later, retryFault) == (after, response)
  {
    if ClaimProceeds(t, call, k, staleTimeout, now) {
      ProceededEnds(t, call, k, staleTimeout, id, now, fault);
      var (after, response) := HandleAlone(t, call, k, staleTimeout, id, now, fault);
      SettledReplays(after, call, k, staleTimeout, retryId, later, retryFault);
    }
  }

  /**
   * A request whose COMMIT took effect and whose answer was lost is answered with a server error,
   * but leaves exactly the tables of the answered request; sent again with its key it is answered
   * the 201 of that one posting, and nothing changes any more.
   */
  lemma LostAnswerIsReplayed(t: Tables, call: Call, k: Key, staleTimeout: nat, id: Id, now: int, fault: Fault,
                             retryId: Id, later: int, retryFault: Fault)
    requires ClaimProceeds(t, call, k, staleTimeout, now) && LosesAnswer(t, call, k, staleTimeout, id, now, fault)
    ensures var (after, response) := HandleAlone(t, call, k, staleTimeout, id, now, fault);
      && response.status >= 500
      && after == HandleAlone(t, call, k, staleTimeout, id, now, NoFault).0
      && HandleAlone(after, call, k, staleTimeout, retryId, later, retryFault) == (after, PostedResponse(id))
  {
    hide LosesAnswer;
    ProceededEnds(t, call, k, staleTimeout, id, now, fault);
    var (after, response) := HandleAlone(t, call, k, staleTimeout, id, now, fault);
    SettledReplays(after, call, k, staleTimeout, retryId, later, retryFault);
  }

  lemma SettledReplays(t: Tables, call: Call, k: Key, staleTimeout: nat, id: Id, now: int, fault: Fault)
    requires k in t.keys && t.keys[k].progress.Completed? && t.keys[k].fingerprint == call.fingerprint
    ensures HandleAlone(t, call, k, staleTimeout, id, now, fault) == (t, t.keys[k].progress.response)
  {
  }

  // ---------------------------------------------------------------- what the answer says

  /**
   * The claim, from the key's row alone: a free key, or the same request's own claim once it is stale,
   * proceeds; another request's key conflicts; a stored answer is replayed; a running claim is waited
   * for.
   */
  lemma ClaimDecides(t: Tables, call: Call, k: Key, staleTimeout: nat, id: Id, now: int, fault: Fault)
    ensures ClaimProceeds(t, call, k, staleTimeout, now) <==>
      k !in t.keys || (&& t.keys[k].fingerprint == call.fingerprint && t.keys[k].progress == InProgress
                       && t.keys[k].createdAt < now - staleTimeout)
    ensures !ClaimProceeds(t, call, k, staleTimeout, now) ==>
      HandleAlone(t, call, k, staleTimeout, id, now, fault) ==
        (t, if t.keys[k].fingerprint != call.fingerprint then Response(409, ErrorBody(KEY_CONFLICT))
            else if t.keys[k].progress.Completed? then t.keys[k].progress.response
            else Response(409, ErrorBody(IN_PROGRESS)))
  {
    hide CreateAlone, Settled;
  }

  /**
   * A request that proceeded and is answered 201, or loses that answer, moved exactly the amount it
   * names from its caller's source account to its destination, and wrote one event.
   */
  lemma AnswerMovesMoney(t: Tables, call: Call, k: Key, staleTimeout: nat, id: Id, now: int, fault: Fault, amount: nat)
    requires ClaimProceeds(t, call, k, staleTimeout, now) && call.amountText == MoneyText.Decimal(amount)
    requires HandleAlone(t, call, k, staleTimeout, id, now, fault).1.status == CREATED
             || LosesAnswer(t, call, k, staleTimeout, id, now, fault)
    ensures var after := HandleAlone(t, call, k, staleTimeout, id, now, fault).0;
      && TransferMoves(t.book, after.book, id, call.principal, call.source, call.destination, amount)
      && after.events == t.events + [id]
  {
    hide RunBody, TransferMoves;
    var keys := ClaimAlone(t.keys, k, call.fingerprint, staleTimeout, now).0;
    AmountIs(call.amountText, FromMinor(call.amountText).value);
    CommitTransfers(t.(keys := keys), id, RequestOf(call, Some(k)), now);
  }

  /** With no proper amount, or from an account to itself, the request is refused without a look at the book. */
  lemma MalformedIsRefused(t: Tables, call: Call, k: Key, staleTimeout: nat, id: Id, now: int, fault: Fault)
    requires ClaimProceeds(t, call, k, staleTimeout, now)
    ensures var response := HandleAlone(t, call, k, staleTimeout, id, now, fault).1;
      var isAmount := exists n: nat :: call.amountText == MoneyText.Decimal(n) && 0 < n <= MAX_BIGINT;
      && (response == Response(400, ErrorBody(INVALID_AMOUNT)) <==> !isAmount)
      && (response == Response(400, ErrorBody(SELF_TRANSFER)) <==> isAmount && call.source == call.destination)
  {
    hide RunBody;
    AmountExists(call.amountText);
  }

  lemma AmountExists(text: string)
    ensures FromMinor(text).Some? <==> exists n: nat :: text == MoneyText.Decimal(n) && 0 < n <= MAX_BIGINT
  {
    if FromMinor(text).Some? {
      AmountIs(text, FromMinor(text).value);
      MoneyText.DecimalOfValue(text);
      assert text == MoneyText.Decimal(FromMinor(text).value);
    }
    forall n: nat | text == MoneyText.Decimal(n) && 0 < n <= MAX_BIGINT
      ensures FromMinor(text) == Some(n)
    {
      FromMinorTakes(n, text);
    }
  }

  /**
   * What the accounts answer to a request that proceeded, no infrastructure failing: the first of its
   * conditions that fails gives the status and the code, and it is answered 201 if and only if none
   * fails.
   */
  lemma AccountsDecide(t: Tables, call: Call, k: Key, staleTimeout: nat, id: Id, now: int, amount: nat)
    requires ClaimProceeds(t, call, k, staleTimeout, now) && AllBalancesAllowed(t.book) && id !in t.book.transactions
    requires call.amountText == MoneyText.Decimal(amount) && 0 < amount <= MAX_BIGINT
    requires call.source != call.destination
    ensures var a, response := t.book.accounts, HandleAlone(t, call, k, staleTimeout, id, now, NoFault).1;
      var seen := MayTransfer(a, call.principal, call.source, call.destination);
      var active := seen && BothActive(a, call.source, call.destination);
      var same := active && a[call.source].currency == a[call.destination].currency;
      var funded := same && amount <= a[call.source].balance;
      && (response == Response(404, ErrorBody(ACCOUNT_NOT_FOUND)) <==> !seen)
      && (response == Response(409, ErrorBody(ACCOUNT_NOT_ACTIVE)) <==> seen && !active)
      && (response == Response(400, ErrorBody(CURRENCY_MISMATCH)) <==> active && !same)
      && (response == Response(409, ErrorBody(INSUFFICIENT_FUNDS)) <==> same && !funded)
      && (response == Response(500, ErrorBody(INTERNAL_ERROR)) <==>
            funded && a[call.destination].balance + amount > MAX_BIGINT)
      && (response == Response(201, PostedBody(id)) <==>
            Payable(a, call.principal, call.source, call.destination, amount))
  {
    hide RunBody;
    var req := Transfer(call.principal, call.source, call.destination, amount, Some(k));
    FromMinorTakes(amount, call.amountText);
    TransferRefusals(t.book, id, req);
  }

  // ---------------------------------------------------------------- the handler

  /** The rest of the world during one request. */
  datatype World = World(
    gaps: seq<Gap>,
    others: (nat, Tables) -> Tables,
    faults: nat -> Fault,
    draws: nat -> Draw,
    settleFails: bool)

  /** Nobody else touches the tables, and settling works; attempts may fail in any way. */
  ghost predicate NothingElse(w: World) {
    Quiet(w.gaps) && !w.settleFails && LostIsFinal(w.faults) && forall a, t :: w.others(a, t) == t
  }

  function CourseOf(call: Call, key: Option<Key>, id: Id, now: int, w: World): Course
    requires FromMinor(call.amountText).Some?
  {
    Course(id, RequestOf(call, key), now, w.others, w.faults)
  }

  lemma {:induction false} OthersIdle(t: Tables, c: Course, a: nat)
    requires forall b, u :: c.others(b, u) == u
    ensures OthersOnly(t, c, a) == t
  {
    if a > 0 {
      OthersIdle(t, c, a - 1);
    }
  }

  /** Undisturbed, the last attempt finds the tables the first one found. */
  lemma LastFindsFirst(t: Tables, c: Course, attempts: nat)
    requires (forall b, u :: c.others(b, u) == u) && LostIsFinal(c.faults)
    requires attempts > 0 && AllRetryable(t, c, attempts - 1)
    ensures FoundBy(t, c, attempts) == t
  {
    hide AllRetryable, LeftBy, OthersOnly, LostIsFinal;
    RetriedLeaveNothing(t, c, attempts - 1);
    OthersIdle(t, c, attempts - 1);
  }

  /** Undisturbed, and however often it retried, `create` does what its last attempt alone would have done. */
  lemma CreatedAlone(t: Tables, call: Call, key: Option<Key>, id: Id, now: int, w: World,
                     attempts: nat, after: Tables, created: Created)
    requires NothingElse(w)
    requires attempts == 0 <==> FromMinor(call.amountText).None? || call.source == call.destination
    requires attempts == 0 ==>
      after == t && created == if FromMinor(call.amountText).None? then InvalidAmount else SelfTransfer
    requires attempts > 0 ==>
      var c := CourseOf(call, key, id, now, w);
      && AllRetryable(t, c, attempts - 1)
      && created == EndingOf(AnswerOf(t, c, attempts)) && after == LeftBy(t, c, attempts)
    ensures (after, created) == CreateAlone(t, call, key, id, now, w.faults(attempts))
  {
    hide CommitRequest, Left, Answer, LeftBy, AnswerOf, FoundBy, AllRetryable, LostIsFinal, EndingOf, Quiet;
    if attempts > 0 {
      var c := CourseOf(call, key, id, now, w);
      LastFindsFirst(t, c, attempts);
      OneMoreAttempt(t, c, attempts);
    }
  }

  lemma CreatedIff(created: Created, id: Id)
    ensures ResponseOf(created, id).status == CREATED <==> created == TransferCompleted
  {
  }

  /** What `create` without interference did when it completed. */
  ghost predicate MovesAmounts(before: Book, after: Book, call: Call, id: Id) {
    forall n: nat :: call.amountText == MoneyText.Decimal(n) ==>
      TransferMoves(before, after, id, call.principal, call.source, call.destination, n)
  }

  lemma CreateAloneMoves(t: Tables, call: Call, key: Option<Key>, id: Id, now: int, fault: Fault)
    requires CreateAlone(t, call, key, id, now, fault).1 == TransferCompleted
    ensures MovesAmounts(t.book, CreateAlone(t, call, key, id, now, fault).0.book, call, id)
  {
    hide RunBody, TransferMoves;
    AmountIs(call.amountText, FromMinor(call.amountText).value);
    CommitTransfers(t, id, RequestOf(call, key), now);
  }

  /** The settlement is the last of a request's own statements, if it runs one. */
  predicate SettledBy(own: seq<Ran>, k: Key, response: Response) {
    && |own| > 0
    && own[|own| - 1].stmt == if 400 <= response.status < 500 then Settle(k, response) else Statement.Release(k)
  }

  predicate NeverSettled(own: seq<Ran>) {
    forall r :: r in own ==> !r.stmt.Settle? && !r.stmt.Release?
  }

  /** A completed request's key was answered with the money, and a lost claim is somebody else's to settle. */
  predicate NothingToSettle(response: Response) {
    response.status == 201 || response == Response(409, ErrorBody(IN_PROGRESS))
  }

  lemma NothingToSettleIff(created: Created, id: Id)
    ensures NothingToSettle(ResponseOf(created, id)) <==> created == TransferCompleted || LostClaim(created)
  {
  }

  class Handler {
    const store: Store
    const service: Service
    const staleTimeout: nat

    constructor (store: Store, service: Service, staleTimeout: nat)
      ensures this.store == store && this.service == service && this.staleTimeout == staleTimeout
    {
      this.store, this.service, this.staleTimeout := store, service, staleTimeout;
    }

    /** `create`, called with what the handler passes on. */
    method CreateFor(call: Call, key: Option<Key>, id: Id, w: World) returns (created: Created, ghost attempts: nat)
      modifies service, service.metrics, store.db
      ensures NothingElse(w) && service.maxAttempts > 0 ==>
        (store.db.TablesNow(), created) ==
          CreateAlone(old(store.db.TablesNow()), call, key, id, store.clock, w.faults(attempts))
      ensures NothingElse(w) && service.maxAttempts > 0 && created == TransferCompleted ==>
        MovesAmounts(old(store.db.BookNow()), store.db.BookNow(), call, id)
      ensures attempts <= service.maxAttempts && store.db.runs == old(store.db.runs) + attempts
    {
      hide CreateAlone, AllRetryable, AnswerOf, LeftBy, EndingOf, OthersOnly, CommitRequest, FromMinor;
      hide NothingElse, MovesAmounts, Transferred;
      ghost var t := store.db.TablesNow();
      created, attempts := service.Create(store.db, call.source, call.destination, call.amountText, call.principal,
                                          key, id, store.clock, w.others, w.faults, w.draws);
      if NothingElse(w) && service.maxAttempts > 0 {
        CreatedAlone(t, call, key, id, store.clock, w, attempts, store.db.TablesNow(), created);
        if created == TransferCompleted { CreateAloneMoves(t, call, key, id, store.clock, w.faults(attempts)); }
      }
    }

    /** `settleFailure`, whose own failure is logged and swallowed. */
    method Settle(k: Key, created: Created, id: Id, fails: bool)
      requires created != TransferCompleted && !LostClaim(created)
      modifies store`ran, store.db`keys
      ensures store.db.keys ==
        if fails then old(store.db.keys) else Settled(old(store.db.keys), k, created, id, store.clock)
      ensures fails ==> store.ran == old(store.ran)
      ensures !fails ==>
        && old(store.ran) <= store.ran && |store.ran| == |old(store.ran)| + 1
        && SettledBy(store.ran[|old(store.ran)|..], k, ResponseOf(created, id))
    {
      if fails { return; }
      var response := ResponseOf(created, id);
      if ReplayableFailure(response) {
        store.Complete(k, response);
      } else {
        store.Release(k);
      }
    }

    /** `claimOrReplay`: nothing if the request is to proceed, and otherwise its answer. */
    method ClaimOrReplay(k: Key, fingerprint: Fingerprint, gaps: seq<Gap>) returns (reply: Option<Response>)
      modifies store, store.db`keys
      ensures Quiet(gaps) ==>
        && store.clock == old(store.clock)
        && var (keys, claimed) := ClaimAlone(old(store.db.keys), k, fingerprint, staleTimeout, old(store.clock));
        && store.db.keys == keys && reply == ReplyOf(claimed)
        && (reply.Some? ==> store.db.keys == old(store.db.keys))
      ensures Answered(old(store.db.keys), k) && AllSpare(gaps, k, old(store.db.keys)[k]) ==>
        && var row := old(store.db.keys)[k];
        && reply == Some(if row.fingerprint == fingerprint then row.progress.response else CONFLICT_RESPONSE)
        && k in store.db.keys && store.db.keys[k] == row
      ensures old(store.ran) <= store.ran && NeverSettled(store.ran[|old(store.ran)|..])
    {
      hide AllSpare, Quiet, AnswerFits;
      var claimed := store.Claim(k, fingerprint, staleTimeout, gaps);
      if claimed.Proceed? { return None; }
      return match claimed
        case Replay(record) =>
          Some(if record.progress.Completed? then record.progress.response else IN_PROGRESS_RESPONSE)
        case Conflict => Some(CONFLICT_RESPONSE)
        case _ => Some(IN_PROGRESS_RESPONSE);
    }

    /**
     * The request.  Undisturbed, however its attempts fail and however often it retries, it is
     * `HandleAlone` meeting its last attempt's failure.  In any world: unless the claim proceeds no
     * transaction is begun, and a settled key nobody purges is answered from its row alone.
     */
    method Post(call: Call, key: Option<Key>, id: Id, w: World)
      returns (response: Response, ghost proceeded: bool, ghost attempts: nat)
      modifies store, store.db, service, service.metrics
      ensures key.Some? && NothingElse(w) && service.maxAttempts > 0 ==>
        (store.db.TablesNow(), response) ==
          HandleAlone(old(store.db.TablesNow()), call, key.value, staleTimeout, id, old(store.clock),
                      w.faults(attempts))
      ensures attempts <= service.maxAttempts && store.db.runs == old(store.db.runs) + attempts
      ensures !proceeded ==> attempts == 0 && store.db.BookNow() == old(store.db.BookNow())
      ensures key.None? && NothingElse(w) && service.maxAttempts > 0 ==>
        var (after, created) := CreateAlone(old(store.db.TablesNow()), call, key, id, old(store.clock),
                                            w.faults(attempts));
        store.db.TablesNow() == after && response == ResponseOf(created, id)
      ensures NothingElse(w) && service.maxAttempts > 0 && proceeded && response.status == CREATED ==>
        MovesAmounts(old(store.db.BookNow()), store.db.BookNow(), call, id)
      ensures old(store.ran) <= store.ran
      ensures key.Some? ==>
        if proceeded && !NothingToSettle(response) && !w.settleFails
        then SettledBy(store.ran[|old(store.ran)|..], key.value, response)
        else NeverSettled(store.ran[|old(store.ran)|..])
      ensures key.Some? && Answered(old(store.db.keys), key.value)
              && AllSpare(w.gaps, key.value, old(store.db.keys)[key.value]) ==>
        && !proceeded
        && var row := old(store.db.keys)[key.value];
        && response == (if row.fingerprint == call.fingerprint then row.progress.response else CONFLICT_RESPONSE)
        && key.value in store.db.keys && store.db.keys[key.value] == row
    {
      hide CreateAlone, ClaimAlone, ReplyOf, MovesAmounts, ResponseOf, AllSpare, Quiet, NeverSettled;
      proceeded, attempts := true, 0;
      if key.Some? {
        var reply := ClaimOrReplay(key.value, call.fingerprint, w.gaps);
        if reply.Some? {
          proceeded, response := false, reply.value;
          return;
        }
      }
      var created;
      created, attempts := CreateFor(call, key, id, w);
      response := ResponseOf(created, id);
      CreatedIff(created, id);
      NothingToSettleIff(created, id);
      if key.Some? && created != TransferCompleted && !LostClaim(created) {
        Settle(key.value, created, id, w.settleFails);
      }
    }
  }
}
