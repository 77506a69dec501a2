/**
 The operator's retry: read the DEAD job, compute its new budget, then update under a guard on the
 status alone. As one step it always leaves budget; as two steps it may strand the job for ever.
 */
module OperatorRetry {
  import opened Core
  import opened Validation
  import opened Queue
  import opened Audit
  import opened Progress
  import opened Fencing
  import opened Effects
  import opened Store

  const RETRY_BUDGET_INCREMENT: int := 5

  datatype ApiError = NotFound | InvalidState | InvalidArgument | Internal

  /** The new budget computed from the row that was read. */
  function NewBudget(db: Db, id: Uuid, requested: Option<int>): Result<int, ApiError> {
    if id !in db.jobs then Err(NotFound)
    else if !db.jobs[id].status.Dead? then Err(InvalidState)
    else if requested.Some? then
      if !ValidMaxAttempts(requested.value) then Err(InvalidArgument)
      else if requested.value <= db.jobs[id].attempts then Err(InvalidArgument)
      else Ok(requested.value)
    else Ok(WrappingAdd32(db.jobs[id].attempts, RETRY_BUDGET_INCREMENT))
  }

  /** Read and update as one step: the job can be claimed again, or the update is rejected and nothing changed. */
  lemma AtomicRetryLeavesBudget(db: Db, id: Uuid, requested: Option<int>)
    requires Inv(db) && NoneStranded(db) && NewBudget(db, id, requested).Ok?
    ensures var budget := NewBudget(db, id, requested).value; var db' := ReplayTx(db, id, budget);
      && NoneStranded(db')
      && (db' == db || (db'.jobs[id].status.Pending? && db'.jobs[id].attempts < db'.jobs[id].maxAttempts))
      && (db' == db <==> requested.None? && db.jobs[id].attempts + RETRY_BUDGET_INCREMENT > I32_MAX)
  {
    var budget := NewBudget(db, id, requested).value;
    assert SatisfiesChecks(db.jobs[id]) && db.jobs[id].attempts >= 1;
    ReplayRejectedExactly(db, id, budget);
    StrandedByReplay(db, id, budget);
  }

  /** The late update finds the job DEAD and leaves it PENDING with nothing left. */
  predicate Strands(db: Db, id: Uuid, budget: int) {
    && id in db.jobs && db.jobs[id].status.Dead?
    && var after := ReplayTx(db, id, budget);
    id in after.jobs && after.jobs[id].status.Pending? && after.jobs[id].attempts >= after.jobs[id].maxAttempts
  }

  /**
   Read in `db`, update after any run `es` of others, other retries of any jobs included: the update strands the
   job exactly when it is DEAD again and the claims made in between have used up the whole new budget.
   */
  lemma SplitRetryExact(db: Db, es: seq<Event>, id: Uuid, requested: Option<int>)
    requires Inv(db) && Legal(db, es) && NewBudget(db, id, requested).Ok?
    ensures var budget := NewBudget(db, id, requested).value; var end := Exec(db, es);
      && id in end.jobs
      && (Strands(end, id, budget) <==> end.jobs[id].status.Dead? && ClaimsOf(es, id) == budget - db.jobs[id].attempts)
  {
    var budget := NewBudget(db, id, requested).value;
    AttemptsCountClaims(db, es, id);
    RunKeepsInv(db, es);
    RetryStrands(Exec(db, es), id, budget);
  }

  lemma RetryStrands(db: Db, id: Uuid, budget: int)
    requires Inv(db) && id in db.jobs
    ensures Strands(db, id, budget) <==> db.jobs[id].status.Dead? && db.jobs[id].attempts == budget
  {
    assert SatisfiesChecks(db.jobs[id]);
    if db.jobs[id].status.Dead? {
      assert SatisfiesChecks(Replayed(db.jobs[id], budget, db.now)) <==> db.jobs[id].attempts <= budget <= I32_MAX;
    }
  }

  /** If all others keep budget, that is the only way any job at all can be stranded. */
  lemma OnlyThisJobStranded(db: Db, es: seq<Event>, id: Uuid, requested: Option<int>)
    requires Inv(db) && NoneStranded(db) && Legal(db, es) && AlwaysKeepsBudget(db, es)
    requires NewBudget(db, id, requested).Ok?
    ensures var budget := NewBudget(db, id, requested).value; var end := Exec(db, es);
      NoneStranded(ReplayTx(end, id, budget)) <==> !Strands(end, id, budget)
  {
    NeverStranded(db, es);
    AttemptsCountClaims(db, es, id);
    var budget := NewBudget(db, id, requested).value;
    RetryStrands(Exec(db, es), id, budget);
    StrandedByReplay(Exec(db, es), id, budget);
  }

  predicate DiesWith(db: Db, id: Uuid, attempts: int, budget: int) {
    id in db.jobs && db.jobs[id].status.Dead? && db.jobs[id].attempts == attempts && db.jobs[id].maxAttempts == budget
  }

  /** A worker claims the job alone, and its charge is rejected for good. */
  lemma ClaimedAndRejected(db: Db, id: Uuid, token: Token) returns (es: seq<Event>)
    requires id in db.jobs && Claimable(db.jobs[id], db.now) && token !in db.minted
    ensures Legal(db, es) && DiesWith(Exec(db, es), id, db.jobs[id].attempts + 1, db.jobs[id].maxAttempts)
  {
    var bury := Finalize(id, token, Bury(DownstreamRejected));
    AloneIsHeld(db, id, token);
    es := Prepend(Apply(db, ClaimAlone(id, token)), bury, []);
    es := Prepend(db, ClaimAlone(id, token), es);
  }

  /** From any DEAD job: another operator asks for one more attempt, and that attempt is rejected for good. */
  lemma OneMoreAttempt(db: Db, id: Uuid, token: Token) returns (es: seq<Event>)
    requires id in db.jobs && db.jobs[id].status.Dead? && SatisfiesChecks(db.jobs[id])
    requires db.jobs[id].attempts < I32_MAX && token !in db.minted
    ensures Legal(db, es) && DiesWith(Exec(db, es), id, db.jobs[id].attempts + 1, db.jobs[id].attempts + 1)
  {
    var retry := Replay(id, db.jobs[id].attempts + 1);
    RetryOpens(db, id, retry.budget);
    es := AfterRetry(db, retry, Apply(db, retry), token);
  }

  lemma AfterRetry(db: Db, retry: Event, waiting: Db, token: Token) returns (es: seq<Event>)
    requires retry.Replay? && waiting == Apply(db, retry) && retry.id in waiting.jobs
    requires Claimable(waiting.jobs[retry.id], waiting.now) && token !in waiting.minted
    ensures Legal(db, es)
    ensures DiesWith(Exec(db, es), retry.id, waiting.jobs[retry.id].attempts + 1, waiting.jobs[retry.id].maxAttempts)
  {
    es := ClaimedAndRejected(waiting, retry.id, token);
    es := Prepend(db, retry, es);
  }

  /** A DEAD job given more than it spent can be claimed at once. */
  lemma RetryOpens(db: Db, id: Uuid, budget: int)
    requires id in db.jobs && db.jobs[id].status.Dead? && SatisfiesChecks(db.jobs[id])
    requires db.jobs[id].attempts < budget <= I32_MAX
    ensures var db' := ReplayTx(db, id, budget);
      && id in db'.jobs && Claimable(db'.jobs[id], db'.now) && db'.minted == db.minted
      && db'.jobs[id].attempts == db.jobs[id].attempts && db'.jobs[id].maxAttempts == budget
  {
  }

  /**
   The race: if others meanwhile retry the job and it dies having spent exactly the budget computed here,
   the late update leaves it PENDING with nothing left, and no run ever changes it again.
   */
  lemma RacingRetriesStrand(db: Db, es: seq<Event>, id: Uuid, requested: Option<int>, later: seq<Event>)
    requires Inv(db) && Legal(db, es) && NewBudget(db, id, requested).Ok?
    requires var budget := NewBudget(db, id, requested).value; var end := Exec(db, es);
      && id in end.jobs && end.jobs[id].status.Dead? && end.jobs[id].attempts == budget
      && Legal(ReplayTx(end, id, budget), later)
    ensures var budget := NewBudget(db, id, requested).value;
      var end := Exec(ReplayTx(Exec(db, es), id, budget), later);
      id in end.jobs && end.jobs[id].status.Pending? && end.jobs[id].attempts == end.jobs[id].maxAttempts == budget
  {
    var budget := NewBudget(db, id, requested).value;
    RunKeepsInv(db, es);
    var end := Exec(db, es);
    assert SatisfiesChecks(end.jobs[id]) && end.jobs[id].attempts >= 1;
    assert SatisfiesChecks(Replayed(end.jobs[id], budget, end.now));
    StrandedForever(ReplayTx(end, id, budget), later, id);
  }

  /** A concrete run of the race from the empty database: PENDING with two attempts spent out of two. */
  lemma RaceHappens(payload: Json) returns (es: seq<Event>, meanwhile: seq<Event>)
    requires StorableJson(payload)
    ensures Legal(EMPTY, es)
    ensures NewBudget(Exec(EMPTY, es), 0, Some(2)) == Ok(2)
    ensures Legal(Exec(EMPTY, es), meanwhile) && DiesWith(Exec(Exec(EMPTY, es), meanwhile), 0, 2, 2)
  {
    var waiting := Apply(EMPTY, Insert(0, payload, 1));
    es := ClaimedAndRejected(waiting, 0, 1);
    es := Prepend(EMPTY, Insert(0, payload, 1), es);
    var dead := Exec(EMPTY, es);
    RunKeepsInv(EMPTY, es);
    var token := AnUnusedToken(dead.minted);
    meanwhile := OneMoreAttempt(dead, 0, token);
  }

  // --- The two handlers that write, run without interleaving ---

  /** What submission demands of its three arguments. */
  predicate PassesChecks(kind: string, payload: Json, budget: int) {
    && (exists i :: 0 <= i < |kind| && !IsWhitespace(kind[i])) && ByteLen(kind) <= 64
    && 1 <= budget <= 20
    && ParseChargePayload(payload).Ok?
  }

  /** Submission: nothing is written unless the checks pass, and then the job is as submitted, PENDING and due now. */
  method SubmitJob(store: Store, id: Uuid, kind: string, payload: Json, budget: int) returns (r: Result<Job, ApiError>)
    modifies store
    ensures r == Err(InvalidArgument) <==> !PassesChecks(kind, payload, budget)
    ensures r.Ok? <==> PassesChecks(kind, payload, budget) && '\0' !in kind && StorableJson(payload) && id !in old(store.jobs)
    ensures r.Err? ==> store.Db() == old(store.Db()) && (r.error.InvalidArgument? || r.error.Internal?)
    ensures r.Ok? ==>
      && Submitted(r.value, payload, budget, old(store.now)) && Claimable(r.value, old(store.now))
      && store.Db() == old(store.Db()).(jobs := old(store.jobs)[id := r.value])
      && store.Db() == Apply(old(store.Db()), Insert(id, payload, budget))
  {
    if !ValidKind(kind) || !ValidMaxAttempts(budget) || ParseChargePayload(payload).Err? {
      return Err(InvalidArgument);
    }
    var inserted := store.InsertJob(id, kind, payload, budget);
    match inserted
    case Err(_) => r := Err(Internal);
    case Ok(row) => r := Ok(row);
  }

  /** The answer to a retry of `id`, by the row it finds and the budget asked for. */
  predicate AnswersRetry(jobs: map<Uuid, Job>, id: Uuid, requested: Option<int>, r: Result<Job, ApiError>) {
    if id !in jobs then r == Err(NotFound)
    else if !jobs[id].status.Dead? then r == Err(InvalidState)
    else
      match requested
      case Some(n) => if 1 <= n <= 20 && n > jobs[id].attempts then r.Ok? else r == Err(InvalidArgument)
      case None => if jobs[id].attempts + 5 <= 0x7FFF_FFFF then r.Ok? else r == Err(Internal)
  }

  /**
   The operator's retry: read, compute, update. When it succeeds, the job has the budget that was asked for, or five
   attempts more than it spent; it is PENDING and due now, and nothing else changed.
   */
  method RetryJob(store: Store, id: Uuid, requested: Option<int>) returns (r: Result<Job, ApiError>)
    modifies store
    ensures Inv(old(store.Db())) ==> AnswersRetry(old(store.jobs), id, requested, r)
    ensures r.Err? ==> store.Db() == old(store.Db())
    ensures Inv(old(store.Db())) && r.Ok? ==>
      && store.Db() == old(store.Db()).(jobs := old(store.jobs)[id := r.value])
      && id in old(store.jobs)
      && RetriedRow(old(store.jobs)[id], r.value,
                    if requested.Some? then requested.value else old(store.jobs)[id].attempts + 5, old(store.now))
    ensures var budget := NewBudget(old(store.Db()), id, requested);
      store.Db() == if budget.Ok? then Apply(old(store.Db()), Replay(id, budget.value)) else old(store.Db())
  {
    assert Inv(store.Db()) && id in store.jobs ==> SatisfiesChecks(store.jobs[id]);
    var budget := NewBudget(store.Db(), id, requested);
    if budget.Err? {
      return Err(budget.error);
    }
    var updated := store.RetryDeadJob(id, budget.value);
    match updated
    case Err(_) => r := Err(Internal);
    case Ok(None) => r := Err(InvalidState);
    case Ok(Some(row)) => r := Ok(row);
  }
}
