/**
 The queue database as immutable values: the jobs table, the append-only
 job_attempts table, the database clock and the set of lease tokens ever minted.
 Each SQL statement is a function from tables to tables; a transaction composes
 its statements in their order, all at one frozen time. `Event` names every
 transaction with its arguments, and nothing restricts who may issue one: a token
 may be stale, guessed or replayed.
 */
module Queue {
  import opened Core
  import opened Validation

  /** Milliseconds on the database clock. */
  type Time = int
  type Token = nat

  datatype Status = Pending | Running | Succeeded | Dead

  datatype Outcome = AttemptSucceeded | RetryScheduled | AttemptDead | LeaseLost

  datatype ErrorCode =
    | RetryBudgetExhausted
    | LeaseExpiredBudgetExhausted
    | InvalidPayload
    | DownstreamUnreachable
    | DownstreamRejected

  datatype Job = Job(
    payload: Json,
    status: Status,
    attempts: int,
    maxAttempts: int,
    nextAttemptAt: Time,
    leaseToken: Option<Token>,
    leaseExpiresAt: Option<Time>,
    lastError: Option<ErrorCode>,
    createdAt: Time,
    startedAt: Option<Time>,
    finishedAt: Option<Time>
  )

  datatype AttemptId = AttemptId(job: Uuid, number: int)

  datatype Attempt = Attempt(
    worker: nat,
    token: Token,
    startedAt: Time,
    finishedAt: Option<Time>,
    outcome: Option<Outcome>,
    error: Option<ErrorCode>,
    scheduledDelay: Option<nat>
  )

  datatype Db = Db(
    jobs: map<Uuid, Job>,
    attempts: map<AttemptId, Attempt>,
    now: Time,
    minted: set<Token>
  )

  const EMPTY: Db := Db(map[], map[], 0, {})

  // --- Row guards (a NULL column makes a SQL comparison not true) ---

  predicate Expired(j: Job, t: Time) {
    j.status.Running? && j.leaseExpiresAt.Some? && j.leaseExpiresAt.value <= t
  }

  predicate Exhausted(j: Job, t: Time) {
    Expired(j, t) && j.attempts >= j.maxAttempts
  }

  predicate Claimable(j: Job, t: Time) {
    && ((j.status.Pending? && j.nextAttemptAt <= t) || Expired(j, t))
    && j.attempts < j.maxAttempts
  }

  /** The fencing guard of every lease-touching statement. */
  predicate Held(db: Db, id: Uuid, token: Token) {
    id in db.jobs && db.jobs[id].status.Running? && db.jobs[id].leaseToken == Some(token)
  }

  /** The CHECK constraints of the jobs table, in the order the schema lists them. */
  predicate SatisfiesChecks(j: Job) {
    && j.attempts >= 0
    && j.maxAttempts >= 1
    && j.attempts <= j.maxAttempts
    && (j.leaseToken.None? <==> j.leaseExpiresAt.None?)
    && (j.status.Pending? ==> j.leaseToken.None? && j.finishedAt.None?)
    && (j.status.Running? ==> j.leaseToken.Some? && j.leaseExpiresAt.Some?)
    && (j.status.Succeeded? || j.status.Dead? ==> j.finishedAt.Some? && j.leaseToken.None?)
    && j.maxAttempts <= I32_MAX
  }

  // --- claim_pending_jobs, statement by statement ---

  predicate Dangling(db: Db, k: AttemptId, t: Time)
    requires k in db.attempts
  {
    db.attempts[k].outcome.None? && k.job in db.jobs && Expired(db.jobs[k.job], t)
  }

  /** Statement 1: every open attempt of an expired job becomes LEASE_LOST, whatever the limit. */
  function CloseExpired(db: Db, t: Time): Db {
    db.(attempts := map k | k in db.attempts ::
      if Dangling(db, k, t)
      then db.attempts[k].(outcome := Some(LeaseLost), finishedAt := Some(t))
      else db.attempts[k])
  }

  function Killed(j: Job, t: Time): Job {
    j.(status := Dead, leaseToken := None, leaseExpiresAt := None,
       lastError := Some(LeaseExpiredBudgetExhausted), finishedAt := Some(t))
  }

  /** Statement 2: an expired job without budget becomes DEAD, unless another transaction has its row locked. */
  function KillExhausted(db: Db, t: Time, locked: set<Uuid>): Db {
    db.(jobs := map id | id in db.jobs ::
      if Exhausted(db.jobs[id], t) && id !in locked then Killed(db.jobs[id], t) else db.jobs[id])
  }

  function Leased(j: Job, token: Token, t: Time, lease: nat): Job {
    j.(status := Running, attempts := j.attempts + 1,
       leaseToken := Some(token), leaseExpiresAt := Some(t + lease),
       startedAt := if j.startedAt.Some? then j.startedAt else Some(t))
  }

  /** Statement 3 on the selected rows, each under its own new token. */
  function LeaseDue(db: Db, t: Time, tokens: map<Uuid, Token>, lease: nat): Db {
    db.(jobs := map id | id in db.jobs ::
          if id in tokens then Leased(db.jobs[id], tokens[id], t, lease) else db.jobs[id],
        minted := db.minted + tokens.Values)
  }

  function NewAttempt(worker: nat, token: Token, t: Time): Attempt {
    Attempt(worker, token, t, None, None, None, None)
  }

  function NewAttemptIds(jobs: map<Uuid, Job>, ids: set<Uuid>): set<AttemptId>
    requires ids <= jobs.Keys
  {
    set id | id in ids :: AttemptId(id, jobs[id].attempts)
  }

  function NewAttemptRows(jobs: map<Uuid, Job>, ids: set<Uuid>, tokens: map<Uuid, Token>, worker: nat, t: Time)
    : map<AttemptId, Attempt>
    requires ids <= jobs.Keys && ids <= tokens.Keys
  {
    map k | k in NewAttemptIds(jobs, ids) :: NewAttempt(worker, tokens[k.job], t)
  }

  /** The insert loop: one attempt row per claimed job, numbered by the job's new attempts value. */
  function RecordAttempts(db: Db, t: Time, tokens: map<Uuid, Token>, worker: nat): Db
    requires tokens.Keys <= db.jobs.Keys
  {
    db.(attempts := db.attempts + NewAttemptRows(db.jobs, tokens.Keys, tokens, worker, t))
  }

  function ClaimTx(db: Db, tokens: map<Uuid, Token>, worker: nat, lease: nat, locked: set<Uuid>): Db
    requires tokens.Keys <= db.jobs.Keys
  {
    var closed := CloseExpired(db, db.now);
    var killed := KillExhausted(closed, db.now, locked);
    var leased := LeaseDue(killed, db.now, tokens, lease);
    RecordAttempts(leased, db.now, tokens, worker)
  }

  // --- The three finalizers ---

  datatype Verdict =
    | Success
    | Retry(delay: nat, code: ErrorCode)
    | Bury(reason: ErrorCode)

  function JobAfter(j: Job, v: Verdict, t: Time): Job {
    var released := j.(leaseToken := None, leaseExpiresAt := None);
    match v
    case Success => released.(status := Succeeded, lastError := None, finishedAt := Some(t))
    case Retry(delay, code) => released.(status := Pending, nextAttemptAt := t + delay, lastError := Some(code))
    case Bury(reason) => released.(status := Dead, lastError := Some(reason), finishedAt := Some(t))
  }

  function AttemptAfter(a: Attempt, v: Verdict, t: Time): Attempt {
    var closed := a.(finishedAt := Some(t));
    match v
    case Success => closed.(outcome := Some(AttemptSucceeded))
    case Retry(delay, code) =>
      closed.(outcome := Some(RetryScheduled), error := Some(code), scheduledDelay := Some(delay))
    case Bury(reason) => closed.(outcome := Some(AttemptDead), error := Some(reason))
  }

  /** Guarded job update; when it matched, every attempt row of the job with the token is rewritten. */
  function FinalizeTx(db: Db, id: Uuid, token: Token, v: Verdict): Db {
    if !Held(db, id, token) then db
    else
      db.(jobs := db.jobs[id := JobAfter(db.jobs[id], v, db.now)],
          attempts := map k | k in db.attempts ::
            if k.job == id && db.attempts[k].token == token
            then AttemptAfter(db.attempts[k], v, db.now)
            else db.attempts[k])
  }

  // --- Remaining transactions ---

  function NewJob(payload: Json, budget: int, t: Time): Job {
    Job(payload, Pending, 0, budget, t, None, None, None, t, None, None)
  }

  /** The primary key, the CHECK constraints and the JSON type may reject the row; then nothing is inserted. */
  function InsertTx(db: Db, id: Uuid, payload: Json, budget: int): Db {
    var row := NewJob(payload, budget, db.now);
    if id in db.jobs || !SatisfiesChecks(row) || !StorableJson(payload) then db
    else db.(jobs := db.jobs[id := row])
  }

  function RenewTx(db: Db, id: Uuid, token: Token, lease: nat): Db {
    if !Held(db, id, token) then db
    else db.(jobs := db.jobs[id := db.jobs[id].(leaseExpiresAt := Some(db.now + lease))])
  }

  function Replayed(j: Job, budget: int, t: Time): Job {
    j.(status := Pending, nextAttemptAt := t, leaseToken := None, leaseExpiresAt := None,
       lastError := None, finishedAt := None, maxAttempts := budget)
  }

  /** `retry_dead_job`: guarded by the status only; the CHECK constraints may reject the new row. */
  function ReplayTx(db: Db, id: Uuid, budget: int): Db {
    if !(id in db.jobs && db.jobs[id].status.Dead?) then db
    else
      var row := Replayed(db.jobs[id], budget, db.now);
      if !SatisfiesChecks(row) then db else db.(jobs := db.jobs[id := row])
  }

  // --- Events and runs ---

  datatype Event =
    | Tick(elapsed: nat)
    | Insert(id: Uuid, payload: Json, budget: int)
    | Claim(tokens: map<Uuid, Token>, worker: nat, lease: nat, locked: set<Uuid>)
    | Finalize(id: Uuid, token: Token, verdict: Verdict)
    | Renew(id: Uuid, token: Token, lease: nat)
    | Replay(id: Uuid, budget: int)

  ghost predicate FreshTokens(db: Db, tokens: map<Uuid, Token>) {
    && tokens.Values !! db.minted
    && forall x, y :: x in tokens && y in tokens && tokens[x] == tokens[y] ==> x == y
  }

  /**
   A claim may take any claimable rows and skip any rows as locked elsewhere, and mints tokens
   never used before. Every other transaction is always possible.
   */
  ghost predicate Enabled(db: Db, e: Event) {
    e.Claim? ==>
      && (forall id :: id in e.tokens ==> id in db.jobs && Claimable(db.jobs[id], db.now))
      && FreshTokens(db, e.tokens)
  }

  function Apply(db: Db, e: Event): Db
    requires e.Claim? ==> e.tokens.Keys <= db.jobs.Keys
  {
    match e
    case Tick(elapsed) => db.(now := db.now + elapsed)
    case Insert(id, payload, budget) => InsertTx(db, id, payload, budget)
    case Claim(tokens, worker, lease, locked) => ClaimTx(db, tokens, worker, lease, locked)
    case Finalize(id, token, verdict) => FinalizeTx(db, id, token, verdict)
    case Renew(id, token, lease) => RenewTx(db, id, token, lease)
    case Replay(id, budget) => ReplayTx(db, id, budget)
  }

  ghost predicate Legal(db: Db, es: seq<Event>)
    decreases |es|
  {
    es == [] || (Enabled(db, es[0]) && Legal(Apply(db, es[0]), es[1..]))
  }

  ghost function Exec(db: Db, es: seq<Event>): Db
    requires Legal(db, es)
    decreases |es|
  {
    if es == [] then db else Exec(Apply(db, es[0]), es[1..])
  }

  lemma {:induction false} ExecSplit(db: Db, es: seq<Event>, i: nat)
    requires Legal(db, es) && i <= |es|
    ensures Legal(db, es[..i])
    ensures Legal(Exec(db, es[..i]), es[i..])
    ensures Exec(Exec(db, es[..i]), es[i..]) == Exec(db, es)
    decreases |es|
  {
    if i == 0 {
      assert es[..0] == [] && es[0..] == es;
    } else {
      assert es[..i][1..] == es[1..][..i - 1] && es[..i][0] == es[0];
      assert es[i..] == es[1..][i - 1..];
      ExecSplit(Apply(db, es[0]), es[1..], i - 1);
    }
  }

  lemma OneEvent(db: Db, e: Event)
    requires Enabled(db, e)
    ensures Legal(db, [e]) && Exec(db, [e]) == Apply(db, e)
  {
    assert [e][1..] == [];
  }

  lemma ExecCons(db: Db, e: Event, es: seq<Event>)
    requires Enabled(db, e) && Legal(Apply(db, e), es)
    ensures Legal(db, [e] + es) && Exec(db, [e] + es) == Exec(Apply(db, e), es)
  {
    assert ([e] + es)[1..] == es;
  }

  /** A run can be put after one more event. */
  lemma Prepend(db: Db, e: Event, es: seq<Event>) returns (all: seq<Event>)
    requires Enabled(db, e) && Legal(Apply(db, e), es)
    ensures Legal(db, all) && Exec(db, all) == Exec(Apply(db, e), es)
  {
    ExecCons(db, e, es);
    all := [e] + es;
  }

  /** Some token is above every minted one. */
  lemma {:induction false} BoundExists(minted: set<Token>)
    ensures exists t: Token :: t !in minted && forall u :: u in minted ==> u < t
    decreases |minted|
  {
    if minted == {} {
      assert 0 !in minted;
    } else {
      var x :| x in minted;
      BoundExists(minted - {x});
      var t: Token :| t !in minted - {x} && forall u :: u in minted - {x} ==> u < t;
      var t' := if x < t then t else x + 1;
      assert forall u :: u in minted ==> u == x || u in minted - {x};
      assert t' !in minted && forall u :: u in minted ==> u < t';
    }
  }

  lemma AnUnusedToken(minted: set<Token>) returns (token: Token)
    ensures token !in minted
  {
    BoundExists(minted);
    token :| token !in minted;
  }
}
