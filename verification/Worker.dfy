/**
 One worker executing one claimed job, in the order of its code: the charge call, the crash points, and
 the finalizer it chooses, with others at work on the queue meanwhile. Module Protocol takes the same
 decisions one step at a time: every execution of the method is one of its schedules.
 */
module Worker {
  import opened Core
  import opened Validation
  import opened Failure
  import opened Idempotency
  import opened Queue
  import opened Audit
  import opened Backoff
  import opened Protocol
  import opened ExactlyOnce
  import opened Effects
  import opened Decisions
  import opened Store
  import Charges

  datatype FailpointName = AfterClaimBeforeEffect | AfterEffectBeforeFinalize | DuringFinalize

  /** What the network does to the call: drop it before or after the service handles it, or deliver the answer. */
  datatype Network = LostRequest | LostResponse | Delivered

  /** One call's environment: the fresh charge id, an injected failure, and the network. */
  datatype Environment = Environment(charge: Uuid, injected: Option<nat>, network: Network)

  /** The row the service would store for a job whose payload parses. */
  function RowFor(job: Uuid, payload: Json, charge: Uuid): Charges.ChargeRow
    requires ParseChargePayload(payload).Ok?
  {
    Charges.ChargeRow(charge, ChargeIdempotencyKey(job), ParseChargePayload(payload).value)
  }

  /** What the worker concludes from one call. */
  function Concludes(rows: seq<Charges.ChargeRow>, job: Uuid, payload: Json, env: Environment): ChargeResult {
    if ParseChargePayload(payload).Err? then Failed(Permanent, InvalidPayload)
    else if !env.network.Delivered? then Failed(Ambiguous, DownstreamUnreachable)
    else if env.injected.Some? then ResultOf(env.injected.value)
    else ResultOf(Charges.StatusOf(Charges.Stored(Charges.AtomicOutcome(rows, RowFor(job, payload, env.charge)))))
  }

  /** What one call leaves in the table. */
  function RowsAfter(rows: seq<Charges.ChargeRow>, job: Uuid, payload: Json, env: Environment): seq<Charges.ChargeRow> {
    if ParseChargePayload(payload).Err? || env.network.LostRequest? || env.injected.Some? then rows
    else Charges.InsertOrNothing(rows, RowFor(job, payload, env.charge))
  }

  /** Somebody was charged under the job's key for something else. */
  predicate ChargedOtherwise(rows: seq<Charges.ChargeRow>, job: Uuid, p: ChargePayload) {
    exists row :: row in rows && row.key == ChargeIdempotencyKey(job) &&
      !(row.payload.customerId == p.customerId && row.payload.amountCents == p.amountCents && row.payload.currency == p.currency)
  }

  /** The result of a call, by what the payload, the network and the service did. */
  predicate ReadsCall(rows: seq<Charges.ChargeRow>, job: Uuid, payload: Json, env: Environment, r: ChargeResult) {
    match ParseChargePayload(payload)
    case Err(_) => r == Failed(Permanent, InvalidPayload)
    case Ok(p) =>
      if !env.network.Delivered? then r == Failed(Ambiguous, DownstreamUnreachable)
      else if env.injected.Some? then AnswerMeans(r, env.injected.value)
      else AnswerMeans(r, if ChargedOtherwise(rows, job, p) then 409 else 200)
  }

  /** The table after a call: a new row exactly if the request was served and nobody had used the key. */
  predicate StoresCharge(rows: seq<Charges.ChargeRow>, job: Uuid, payload: Json, env: Environment, rows': seq<Charges.ChargeRow>) {
    var parsed := ParseChargePayload(payload);
    var served := parsed.Ok? && !env.network.LostRequest? && env.injected.None?;
    if served && forall row :: row in rows ==> row.key != ChargeIdempotencyKey(job)
    then
      && |rows'| == |rows| + 1 && rows'[..|rows|] == rows && rows'[|rows|].id == env.charge
      && rows'[|rows|].key == ChargeIdempotencyKey(job) && rows'[|rows|].payload == parsed.value
    else rows' == rows
  }

  lemma CallInFields(rows: seq<Charges.ChargeRow>, job: Uuid, payload: Json, env: Environment)
    requires Charges.UniqueKeys(rows)
    ensures ReadsCall(rows, job, payload, env, Concludes(rows, job, payload, env))
    ensures StoresCharge(rows, job, payload, env, RowsAfter(rows, job, payload, env))
  {
    if env.injected.Some? {
      StatusIsRead(env.injected.value);
    }
    var found := Charges.FindByIdempotencyKey(rows, ChargeIdempotencyKey(job));
    if found.Some? {
      OnlyOneUnderKey(rows, ChargeIdempotencyKey(job), found.value);
    }
  }

  lemma OnlyOneUnderKey(rows: seq<Charges.ChargeRow>, key: string, row: Charges.ChargeRow)
    requires Charges.UniqueKeys(rows) && row in rows && row.key == key
    ensures forall other :: other in rows && other.key == key ==> other == row
  {
  }

  /**
   What an execution makes of its job, by the fate of the call: `db` is the queue when the finalizer runs, `db'`
   after it. A worker that lost its job changes nothing.
   */
  predicate Decides(db: Db, db': Db, rows: seq<Charges.ChargeRow>, claimed: ClaimedJob, token: Token, draw: nat,
                    env: Environment, failpoints: set<FailpointName>)
  {
    var id := claimed.id;
    var attemptsLeft := claimed.attemptNumber < claimed.job.maxAttempts && DuringFinalize !in failpoints;
    var parsed := ParseChargePayload(claimed.job.payload);
    if !Held(db, id, token) then db' == db
    else if parsed.Err? then BecomesDead(db, db', id, token, InvalidPayload)
    else if !env.network.Delivered? then RetriesOrDies(db, db', id, token, attemptsLeft, draw, DownstreamUnreachable)
    else
      var status := if env.injected.Some? then env.injected.value
                    else if ChargedOtherwise(rows, id, parsed.value) then 409 else 200;
      if 200 <= status <= 299 && AfterEffectBeforeFinalize in failpoints then db' == db
      else ActsOnStatus(db, db', id, token, status, attemptsLeft, draw)
  }

  /** The call is made once the payload parses; the charge is stored unless the call never arrives or is refused. */
  method ExecuteCharge(table: Charges.ChargeTable, job: Uuid, payload: Json, env: Environment) returns (r: ChargeResult)
    requires Charges.UniqueKeys(table.rows)
    modifies table
    ensures Charges.UniqueKeys(table.rows)
    ensures r == Concludes(old(table.rows), job, payload, env)
    ensures table.rows == RowsAfter(old(table.rows), job, payload, env)
    ensures ReadsCall(old(table.rows), job, payload, env, r)
    ensures StoresCharge(old(table.rows), job, payload, env, table.rows)
  {
    CallInFields(table.rows, job, payload, env);
    var parsed := ParseChargePayload(payload);
    if parsed.Err? {
      return Failed(Permanent, InvalidPayload);
    }
    if env.network.LostRequest? {
      return Failed(Ambiguous, DownstreamUnreachable);
    }
    KeyIsReadUnchanged(job);
    SameVerdictAtEveryStage(payload);
    var reply := table.CreateCharge(env.charge, Some(ChargeIdempotencyKey(job)), RequestBody(parsed.value), env.injected);
    if env.network.LostResponse? {
      return Failed(Ambiguous, DownstreamUnreachable);
    }
    r := ResultOf(Charges.StatusOf(reply));
  }

  /** The delay a retryable failure would get; nothing is drawn otherwise. */
  function DelayFor(p: RetryPolicy, attempt: int, draw: nat): nat {
    if Cap(p, Max(attempt, 0)) == 0 then 0 else draw
  }

  /** The event the worker's finalizer is, if it reaches one. */
  function FinalizerFor(r: ChargeResult, id: Uuid, token: Token, attempt: int, maxAttempts: int, delay: nat,
                        failpoints: set<FailpointName>)
    : Option<Event>
  {
    if r.Charged? && AfterEffectBeforeFinalize in failpoints then None
    else if DuringFinalize in failpoints then Some(Finalize(id, token, FailpointVerdict(r)))
    else Some(Finalize(id, token, VerdictFor(r, attempt, maxAttempts, delay)))
  }

  /** What one execution does to both stores, with `others` on the queue between the call and the finalizer. */
  ghost predicate Executes(db: Db, rows: seq<Charges.ChargeRow>, claimed: ClaimedJob, policy: RetryPolicy, draw: nat,
                           env: Environment, others: seq<Event>, failpoints: set<FailpointName>,
                           db': Db, rows': seq<Charges.ChargeRow>)
    requires Legal(db, others)
  {
    if claimed.job.leaseToken.None? || AfterClaimBeforeEffect in failpoints then db' == db && rows' == rows
    else
      var r := Concludes(rows, claimed.id, claimed.job.payload, env);
      var e := FinalizerFor(r, claimed.id, claimed.job.leaseToken.value, claimed.attemptNumber, claimed.job.maxAttempts,
                            DelayFor(policy, claimed.attemptNumber, draw), failpoints);
      && db' == (if e.Some? then Apply(Exec(db, others), e.value) else Exec(db, others))
      && rows' == RowsAfter(rows, claimed.id, claimed.job.payload, env)
  }

  /**
   From claim to finalizer. A claimed row always has a token; a crash point before the call leaves
   everything as it was, one after it leaves the charge without its finalizer.
   */
  method ExecuteAndFinalize(store: Store, table: Charges.ChargeTable, claimed: ClaimedJob, policy: RetryPolicy,
                            draw: nat, env: Environment, others: seq<Event>, failpoints: set<FailpointName>)
    requires Charges.UniqueKeys(table.rows) && policy.multiplier <= U32_MAX && Legal(store.Db(), others)
    requires 0 <= claimed.attemptNumber <= U32_MAX && draw <= CapMillis(policy, claimed.attemptNumber)
    modifies store, table
    ensures Charges.UniqueKeys(table.rows)
    ensures Executes(old(store.Db()), old(table.rows), claimed, policy, draw, env, others, failpoints, store.Db(), table.rows)
    ensures claimed.job.leaseToken.Some? && AfterClaimBeforeEffect !in failpoints ==>
      && Decides(Exec(old(store.Db()), others), store.Db(), old(table.rows), claimed, claimed.job.leaseToken.value, draw,
                 env, failpoints)
      && StoresCharge(old(table.rows), claimed.id, claimed.job.payload, env, table.rows)
    ensures claimed.job.leaseToken.Some? && AfterClaimBeforeEffect !in failpoints && env.injected.None? ==>
      Concludes(old(table.rows), claimed.id, claimed.job.payload, env).Charged? ==> HasCharge(table.rows, claimed.id)
  {
    if claimed.job.leaseToken.None? || AfterClaimBeforeEffect in failpoints {
      return;
    }
    var token := claimed.job.leaseToken.value;
    ExecutionDecides(Exec(store.Db(), others), table.rows, claimed, token, policy, draw, env, failpoints);
    var outcome := ExecuteCharge(table, claimed.id, claimed.job.payload, env);
    if outcome.Charged? && env.injected.None? {
      StoredAfterSuccess(old(table.rows), claimed.id, claimed.job.payload, env);
    }
    store.OthersRun(others);
    FinalizeOutcome(store, claimed, token, outcome, policy, draw, failpoints);
  }

  /** The crash points after the call, and the finalizers. */
  method FinalizeOutcome(store: Store, claimed: ClaimedJob, token: Token, outcome: ChargeResult, policy: RetryPolicy,
                         draw: nat, failpoints: set<FailpointName>)
    requires policy.multiplier <= U32_MAX
    requires 0 <= claimed.attemptNumber <= U32_MAX && draw <= CapMillis(policy, claimed.attemptNumber)
    modifies store
    ensures var e := FinalizerFor(outcome, claimed.id, token, claimed.attemptNumber, claimed.job.maxAttempts,
                                  DelayFor(policy, claimed.attemptNumber, draw), failpoints);
      store.Db() == if e.Some? then Apply(old(store.Db()), e.value) else old(store.Db())
  {
    if outcome.Charged? && AfterEffectBeforeFinalize in failpoints {
      return;
    }
    if DuringFinalize in failpoints {
      match outcome {
        case Charged => var _ := store.FinalizeSuccess(claimed.id, token);
        case Failed(kind, code) =>
          var _ := store.FinalizeDead(claimed.id, token, if IsRetryable(kind) then RetryBudgetExhausted else code);
      }
      return;
    }
    match outcome {
      case Charged => var _ := store.FinalizeSuccess(claimed.id, token);
      case Failed(kind, code) =>
        if IsRetryable(kind) && claimed.attemptNumber < claimed.job.maxAttempts {
          var delay := Delay(policy, claimed.attemptNumber, draw);
          var _ := store.FinalizeRetryScheduled(claimed.id, token, delay, code);
        } else {
          var _ := store.FinalizeDead(claimed.id, token, if IsRetryable(kind) then RetryBudgetExhausted else code);
        }
    }
  }

  lemma ExecutionDecides(db: Db, rows: seq<Charges.ChargeRow>, claimed: ClaimedJob, token: Token, policy: RetryPolicy,
                         draw: nat, env: Environment, failpoints: set<FailpointName>)
    requires Charges.UniqueKeys(rows) && claimed.attemptNumber >= 0 && draw <= CapMillis(policy, claimed.attemptNumber)
    ensures var r := Concludes(rows, claimed.id, claimed.job.payload, env);
      var e := FinalizerFor(r, claimed.id, token, claimed.attemptNumber, claimed.job.maxAttempts,
                            DelayFor(policy, claimed.attemptNumber, draw), failpoints);
      Decides(db, if e.Some? then Apply(db, e.value) else db, rows, claimed, token, draw, env, failpoints)
  {
    var r := Concludes(rows, claimed.id, claimed.job.payload, env);
    CallInFields(rows, claimed.id, claimed.job.payload, env);
    assert DelayFor(policy, claimed.attemptNumber, draw) == draw;
    if Held(db, claimed.id, token) {
      VerdictEffect(db, claimed.id, token, r, claimed.attemptNumber, claimed.job.maxAttempts, draw);
      FailpointEffect(db, claimed.id, token, r);
    }
  }

  /** A success is only concluded when the job's key is in the table after the call. */
  lemma StoredAfterSuccess(rows: seq<Charges.ChargeRow>, job: Uuid, payload: Json, env: Environment)
    requires Concludes(rows, job, payload, env).Charged? && env.injected.None?
    ensures ParseChargePayload(payload).Ok?
    ensures HasCharge(RowsAfter(rows, job, payload, env), job)
  {
    Charges.FindAfterInsert(rows, RowFor(job, payload, env.charge), ChargeIdempotencyKey(job));
  }

  // --- Every execution is a schedule of the whole system ---

  /** The worker's request was sent and is not yet served. */
  predicate Sent(s: Sys, k: AttemptId, call: nat, row: Charges.ChargeRow) {
    && k in s.tasks && s.tasks[k].phase == Protocol.Waiting(call)
    && call in s.service.calls && s.service.calls[call] == Charges.Call(row, Charges.Received)
  }

  /** The reply of the service when nothing interferes with the request. */
  function ReplyTo(rows: seq<Charges.ChargeRow>, row: Charges.ChargeRow, injected: Option<nat>): Charges.Reply {
    if injected.Some? then Charges.Injected(injected.value) else Charges.Stored(Charges.AtomicOutcome(rows, row))
  }

  /** The service is done with a request, and nothing else moved. */
  predicate Answered(s: Sys, s': Sys, call: nat, reply: Charges.Reply, rows: seq<Charges.ChargeRow>) {
    && s'.db == s.db && s'.policy == s.policy && s'.tasks == s.tasks
    && call in s'.service.calls && s'.service.calls[call].stage == Charges.Answered(reply) && s'.service.rows == rows
  }

  lemma Stored(s: Sys, k: AttemptId, call: nat, row: Charges.ChargeRow) returns (acts: seq<Act>)
    requires Sent(s, k, call, row)
    ensures Schedulable(s, acts)
    ensures Answered(s, Final(s, acts), call, ReplyTo(s.service.rows, row, None), Charges.InsertOrNothing(s.service.rows, row))
  {
    acts := Then(s, [], Serve(Charges.Insert(call, true)));
    if Charges.FindByIdempotencyKey(s.service.rows, row.key).Some? {
      acts := Then(s, acts, Serve(Charges.Select(call)));
    }
  }

  lemma Served(s: Sys, k: AttemptId, call: nat, row: Charges.ChargeRow, injected: Option<nat>) returns (acts: seq<Act>)
    requires Sent(s, k, call, row)
    ensures Schedulable(s, acts)
    ensures Answered(s, Final(s, acts), call, ReplyTo(s.service.rows, row, injected),
                     if injected.Some? then s.service.rows else Charges.InsertOrNothing(s.service.rows, row))
  {
    match injected
    case Some(status) => acts := Then(s, [], Serve(Charges.Inject(call, status)));
    case None => acts := Stored(s, k, call, row);
  }

  /** The worker knows the result of its call; only that and the service moved. */
  predicate Concluded(s: Sys, s': Sys, k: AttemptId, r: ChargeResult, rows: seq<Charges.ChargeRow>)
    requires k in s.tasks
  {
    && s'.db == s.db && s'.policy == s.policy && s'.tasks == s.tasks[k := s.tasks[k].(phase := Known(r))]
    && s'.service.rows == rows
  }

  function ResultFrom(rows: seq<Charges.ChargeRow>, row: Charges.ChargeRow, env: Environment): ChargeResult {
    if env.network.Delivered? then ResultOf(Charges.StatusOf(ReplyTo(rows, row, env.injected)))
    else Failed(Ambiguous, DownstreamUnreachable)
  }

  lemma Replied(s: Sys, k: AttemptId, call: nat, row: Charges.ChargeRow, env: Environment) returns (acts: seq<Act>)
    requires Sent(s, k, call, row)
    ensures Schedulable(s, acts)
    ensures Concluded(s, Final(s, acts), k, ResultFrom(s.service.rows, row, env),
                      if env.network.LostRequest? || env.injected.Some? then s.service.rows
                      else Charges.InsertOrNothing(s.service.rows, row))
  {
    if env.network.LostRequest? {
      acts := Then(s, [], LoseResponse(k));
    } else {
      acts := Served(s, k, call, row, env.injected);
      acts := Then(s, acts, if env.network.Delivered? then Respond(k) else LoseResponse(k));
    }
  }

  predicate FreshCall(s: Sys, call: nat, charge: Uuid) {
    call !in s.service.calls && forall c :: c in s.service.calls ==> s.service.calls[c].row.id != charge
  }

  lemma RequestStarts(s: Sys, k: AttemptId, call: nat, charge: Uuid)
    requires k in s.tasks && s.tasks[k].phase == Protocol.Claimed && FreshCall(s, call, charge)
    requires ParseChargePayload(s.tasks[k].payload).Ok?
    ensures Possible(s, Start(k, call, charge))
    ensures var s' := Next(s, Start(k, call, charge));
      && Sent(s', k, call, RowFor(k.job, s.tasks[k].payload, charge))
      && s'.db == s.db && s'.policy == s.policy && s'.service.rows == s.service.rows
      && s'.tasks == s.tasks[k := s.tasks[k].(phase := Protocol.Waiting(call))]
  {
    RequestAccepted(k, call, charge, s.tasks[k].payload);
  }

  lemma CallRefused(s: Sys, k: AttemptId, call: nat, env: Environment)
    requires k in s.tasks && s.tasks[k].phase == Protocol.Claimed && ParseChargePayload(s.tasks[k].payload).Err?
    ensures Possible(s, Start(k, call, env.charge))
    ensures Concluded(s, Next(s, Start(k, call, env.charge)), k, Failed(Permanent, InvalidPayload), s.service.rows)
  {
  }

  lemma CallMade(s: Sys, k: AttemptId, call: nat, env: Environment) returns (acts: seq<Act>)
    requires k in s.tasks && s.tasks[k].phase == Protocol.Claimed && FreshCall(s, call, env.charge)
    requires ParseChargePayload(s.tasks[k].payload).Ok?
    ensures Schedulable(s, acts)
    ensures var row := RowFor(k.job, s.tasks[k].payload, env.charge);
      Concluded(s, Final(s, acts), k, ResultFrom(s.service.rows, row, env),
                if env.network.LostRequest? || env.injected.Some? then s.service.rows
                else Charges.InsertOrNothing(s.service.rows, row))
  {
    var start := Start(k, call, env.charge);
    RequestStarts(s, k, call, env.charge);
    var rest := Replied(Next(s, start), k, call, RowFor(k.job, s.tasks[k].payload, env.charge), env);
    OneAct(s, start);
    SchedulesJoin(s, [start], rest);
    acts := [start] + rest;
  }

  /** One call of the worker, as steps of the system. */
  lemma ChargeSchedule(s: Sys, k: AttemptId, call: nat, env: Environment) returns (acts: seq<Act>)
    requires k in s.tasks && s.tasks[k].phase == Protocol.Claimed && FreshCall(s, call, env.charge)
    ensures Schedulable(s, acts)
    ensures Concluded(s, Final(s, acts), k, Concludes(s.service.rows, k.job, s.tasks[k].payload, env),
                      RowsAfter(s.service.rows, k.job, s.tasks[k].payload, env))
  {
    if ParseChargePayload(s.tasks[k].payload).Err? {
      CallRefused(s, k, call, env);
      acts := Then(s, [], Start(k, call, env.charge));
    } else {
      acts := CallMade(s, k, call, env);
    }
  }

  /** Others at work on the queue: neither this worker nor the service moves. */
  predicate OnlyQueueMoved(s: Sys, s': Sys, k: AttemptId) {
    s'.service == s.service && s'.policy == s.policy && k in s.tasks && k in s'.tasks && s'.tasks[k] == s.tasks[k]
  }

  /** An attempt already in the log is not one that a claim adds. */
  lemma NotNew(db: Db, tokens: map<Uuid, Token>, worker: nat, lease: nat, locked: set<Uuid>, k: AttemptId)
    requires Numbered(db) && Enabled(db, Claim(tokens, worker, lease, locked)) && k in db.attempts
    ensures k !in NewTasks(db, ClaimTx(db, tokens, worker, lease, locked), tokens)
  {
    ClaimedJobs(db, tokens, worker, lease, locked);
    NotNewAfter(db, tokens, lease, locked, ClaimTx(db, tokens, worker, lease, locked), k);
  }

  lemma NotNewAfter(db: Db, tokens: map<Uuid, Token>, lease: nat, locked: set<Uuid>, db': Db, k: AttemptId)
    requires Numbered(db) && k in db.attempts && JobsClaimed(db, tokens, lease, locked, db') && tokens.Keys <= db.jobs.Keys
    ensures k !in NewTasks(db, db', tokens)
  {
    if k.job in tokens {
      assert db'.jobs[k.job] == JobAfterClaim(db, k.job, tokens, lease, locked);
    }
  }

  lemma OneOther(s: Sys, k: AttemptId, e: Event)
    requires Numbered(s.db) && k in s.tasks && k in s.db.attempts && Enabled(s.db, e) && !e.Finalize?
    ensures Possible(s, Database(e))
    ensures Next(s, Database(e)).db == Apply(s.db, e) && OnlyQueueMoved(s, Next(s, Database(e)), k)
  {
    if e.Claim? {
      NotNew(s.db, e.tokens, e.worker, e.lease, e.locked, k);
    }
  }

  lemma {:induction false} OthersSchedule(s: Sys, k: AttemptId, others: seq<Event>) returns (acts: seq<Act>)
    requires SysInv(s) && k in s.tasks && Legal(s.db, others) && forall e :: e in others ==> !e.Finalize?
    ensures Schedulable(s, acts) && Final(s, acts).db == Exec(s.db, others) && OnlyQueueMoved(s, Final(s, acts), k)
    decreases |others|
  {
    acts := [];
    if others != [] {
      var a := Database(others[0]);
      assert TaskAgrees(s.db, k, s.tasks[k]);
      OneOther(s, k, others[0]);
      ActKeepsSys(s, a);
      var rest := OthersSchedule(Next(s, a), k, others[1..]);
      OneAct(s, a);
      SchedulesJoin(s, [a], rest);
      acts := [a] + rest;
    }
  }

  lemma FinalizerSchedule(s: Sys, k: AttemptId, draw: nat, failpoints: set<FailpointName>) returns (a: Act)
    requires k in s.tasks && s.tasks[k].phase.Known? && k.number >= 0 && draw <= CapMillis(s.policy, k.number)
    ensures Possible(s, a)
    ensures var e := FinalizerFor(s.tasks[k].phase.result, k.job, s.tasks[k].token, k.number, s.tasks[k].maxAttempts,
                                  DelayFor(s.policy, k.number, draw), failpoints);
      && Next(s, a).db == (if e.Some? then Apply(s.db, e.value) else s.db)
      && Next(s, a).service == s.service
  {
    if s.tasks[k].phase.result.Charged? && AfterEffectBeforeFinalize in failpoints {
      a := Crash(k);
    } else if DuringFinalize in failpoints {
      a := FinishThenCrash(k);
    } else {
      a := Finish(k, DelayFor(s.policy, k.number, draw));
    }
  }

  /** What the claim returned is what the system keeps for the attempt. */
  predicate Returned(k: AttemptId, task: Task, claimed: ClaimedJob) {
    && claimed.id == k.job && claimed.attemptNumber == k.number && claimed.job.leaseToken == Some(task.token)
    && claimed.job.maxAttempts == task.maxAttempts && claimed.job.payload == task.payload
  }

  /**
   From any reachable state in which a worker holds its claim, whatever the network, the injected failure, the
   draw, the crash points and others do, there is a schedule of the system with the effect of the method.
   */
  lemma ExecutionIsSchedule(s: Sys, k: AttemptId, claimed: ClaimedJob, call: nat, draw: nat, env: Environment,
                            others: seq<Event>, failpoints: set<FailpointName>) returns (acts: seq<Act>)
    requires SysInv(s) && k in s.tasks && s.tasks[k].phase == Protocol.Claimed && Returned(k, s.tasks[k], claimed)
    requires FreshCall(s, call, env.charge) && draw <= CapMillis(s.policy, Max(k.number, 0))
    requires Legal(s.db, others) && forall e :: e in others ==> !e.Finalize?
    ensures Schedulable(s, acts)
    ensures Executes(s.db, s.service.rows, claimed, s.policy, draw, env, others, failpoints,
                     Final(s, acts).db, Final(s, acts).service.rows)
  {
    acts := [];
    if AfterClaimBeforeEffect !in failpoints {
      assert TaskAgrees(s.db, k, s.tasks[k]);
      acts := ChargeSchedule(s, k, call, env);
      var known := Final(s, acts);
      ScheduleKeepsSys(s, acts);
      var meanwhile := OthersSchedule(known, k, others);
      var last := FinalizerSchedule(Final(known, meanwhile), k, draw, failpoints);
      SchedulesJoin(s, acts, meanwhile);
      acts := Then(s, acts + meanwhile, last);
    }
  }
}
