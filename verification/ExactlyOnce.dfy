/**
 At-least-once execution, at most one charge: in every reachable state of the whole system each job has
 at most one charge row, and that row carries the job's own payload. A SUCCEEDED job has it as long as no
 injected answer passes for a success.
 */
module ExactlyOnce {
  import opened Core
  import opened Validation
  import opened Failure
  import opened Idempotency
  import opened Queue
  import opened Audit
  import opened Backoff
  import opened Protocol
  import Charges
  import Fencing

  predicate HasCharge(rows: seq<Charges.ChargeRow>, id: Uuid) {
    Charges.FindByIdempotencyKey(rows, ChargeIdempotencyKey(id)).Some?
  }

  /** The row is what some existing job would be charged. */
  ghost predicate ForSomeJob(db: Db, row: Charges.ChargeRow) {
    exists id :: id in db.jobs && row.key == ChargeIdempotencyKey(id) && ParseChargePayload(db.jobs[id].payload) == Ok(row.payload)
  }

  /** A worker holds the snapshot of its attempt row and its job row; while its token guards the job, budget and all. */
  predicate TaskAgrees(db: Db, k: AttemptId, task: Task) {
    && k in db.attempts && k.job in db.jobs
    && db.attempts[k].token == task.token && db.jobs[k.job].payload == task.payload
    && (Held(db, k.job, task.token) ==>
          db.jobs[k.job].attempts == k.number && db.jobs[k.job].maxAttempts == task.maxAttempts)
  }

  ghost predicate TasksAgree(db: Db, tasks: map<AttemptId, Task>) {
    forall k :: k in tasks ==> TaskAgrees(db, k, tasks[k])
  }

  /** A worker waits for a request about its own job. */
  predicate PhaseAgrees(service: Charges.Service, job: Uuid, phase: Phase) {
    phase.Waiting? ==> phase.call in service.calls && service.calls[phase.call].row.key == ChargeIdempotencyKey(job)
  }

  ghost predicate PhasesAgree(service: Charges.Service, tasks: map<AttemptId, Task>) {
    forall k :: k in tasks ==> PhaseAgrees(service, k.job, tasks[k].phase)
  }

  ghost predicate CallsAgree(db: Db, service: Charges.Service) {
    forall c :: c in service.calls ==> ForSomeJob(db, service.calls[c].row)
  }

  /** Every worker, request and charge can be traced to the rows it came from. */
  ghost predicate Traced(s: Sys) {
    && Logged(s.db) && Charges.ServiceInv(s.service)
    && TasksAgree(s.db, s.tasks) && PhasesAgree(s.service, s.tasks)
    && CallsAgree(s.db, s.service)
  }

  ghost predicate SysInv(s: Sys) {
    Inv(s.db) && Traced(s)
  }

  // --- Database steps ---

  /** Jobs keep their payload and attempt rows their token. */
  ghost predicate Keeps(db: Db, db': Db) {
    && (forall id :: id in db.jobs ==> id in db'.jobs && db'.jobs[id].payload == db.jobs[id].payload)
    && (forall k :: k in db.attempts ==> k in db'.attempts && db'.attempts[k].token == db.attempts[k].token)
  }

  lemma ClaimKeeps(db: Db, tokens: map<Uuid, Token>, worker: nat, lease: nat, locked: set<Uuid>, db': Db)
    requires JobsClaimed(db, tokens, lease, locked, db') && AttemptsClaimed(db, tokens, worker, db')
    ensures Keeps(db, db')
  {
  }

  lemma EventKeeps(db: Db, e: Event)
    requires Numbered(db) && Enabled(db, e)
    ensures Keeps(db, Apply(db, e))
  {
    match e
    case Claim(tokens, worker, lease, locked) =>
      ClaimedJobs(db, tokens, worker, lease, locked);
      ClaimedAttempts(db, tokens, worker, lease, locked);
      ClaimKeeps(db, tokens, worker, lease, locked, ClaimTx(db, tokens, worker, lease, locked));
    case Finalize(_, _, _) =>
    case Tick(_) =>
    case Insert(_, _, _) =>
    case Renew(_, _, _) =>
    case Replay(_, _) =>
  }

  lemma TaskStep(db: Db, e: Event, k: AttemptId, task: Task)
    requires Logged(db) && Enabled(db, e) && TaskAgrees(db, k, task)
    ensures TaskAgrees(Apply(db, e), k, task)
  {
    EventKeeps(db, e);
    Fencing.TokenStep(db, e, k.job, task.token);
  }

  lemma NewTaskAgrees(db: Db, tokens: map<Uuid, Token>, worker: nat, lease: nat, locked: set<Uuid>, k: AttemptId)
    requires Logged(db) && Enabled(db, Claim(tokens, worker, lease, locked))
    requires k in NewTasks(db, ClaimTx(db, tokens, worker, lease, locked), tokens)
    ensures TaskAgrees(ClaimTx(db, tokens, worker, lease, locked), k, NewTasks(db, ClaimTx(db, tokens, worker, lease, locked), tokens)[k])
  {
    ClaimedJobs(db, tokens, worker, lease, locked);
    ClaimedAttempts(db, tokens, worker, lease, locked);
    assert IsNewAttempt(db, k, tokens);
  }

  lemma CallsStep(db: Db, db': Db, service: Charges.Service)
    requires Keeps(db, db') && CallsAgree(db, service)
    ensures CallsAgree(db', service)
  {
    forall c | c in service.calls ensures ForSomeJob(db', service.calls[c].row) {
      var row := service.calls[c].row;
      var id :| id in db.jobs && row.key == ChargeIdempotencyKey(id) && ParseChargePayload(db.jobs[id].payload) == Ok(row.payload);
      assert id in db'.jobs;
    }
  }

  lemma TasksStep(db: Db, e: Event, tasks: map<AttemptId, Task>)
    requires Logged(db) && Enabled(db, e) && TasksAgree(db, tasks)
    ensures TasksAgree(Apply(db, e), tasks)
  {
    forall k | k in tasks {
      TaskStep(db, e, k, tasks[k]);
    }
  }

  /** One database event, with every worker where it was. */
  lemma EventKeepsTraced(s: Sys, e: Event)
    requires Traced(s) && Enabled(s.db, e)
    ensures Traced(s.(db := Apply(s.db, e)))
  {
    StepKeepsLogged(s.db, e);
    EventKeeps(s.db, e);
    CallsStep(s.db, Apply(s.db, e), s.service);
    TasksStep(s.db, e, s.tasks);
  }

  lemma AddTasksKeepsTraced(s: Sys, added: map<AttemptId, Task>)
    requires Traced(s)
    requires forall k :: k in added ==> TaskAgrees(s.db, k, added[k]) && added[k].phase.Claimed?
    ensures Traced(s.(tasks := s.tasks + added))
  {
  }

  lemma DatabaseKeepsTraced(s: Sys, e: Event)
    requires Traced(s) && Possible(s, Database(e))
    ensures Traced(Next(s, Database(e)))
  {
    EventKeepsTraced(s, e);
    if e.Claim? {
      var added := NewTasks(s.db, ClaimTx(s.db, e.tokens, e.worker, e.lease, e.locked), e.tokens);
      forall k | k in added {
        NewTaskAgrees(s.db, e.tokens, e.worker, e.lease, e.locked, k);
      }
      AddTasksKeepsTraced(s.(db := Apply(s.db, e)), added);
    }
  }

  // --- Service steps ---

  /** Charges stay, requests stay, and a new request is for some job. */
  ghost predicate ServiceExtends(db: Db, service: Charges.Service, service': Charges.Service) {
    && (forall id: Uuid :: HasCharge(service.rows, id) ==> HasCharge(service'.rows, id))
    && (forall c :: c in service.calls ==> c in service'.calls && service'.calls[c].row == service.calls[c].row)
    && (forall c :: c in service'.calls && c !in service.calls ==> ForSomeJob(db, service'.calls[c].row))
  }

  lemma PhasesExtend(db: Db, service: Charges.Service, service': Charges.Service, tasks: map<AttemptId, Task>)
    requires ServiceExtends(db, service, service') && PhasesAgree(service, tasks)
    ensures PhasesAgree(service', tasks)
  {
  }

  lemma CallsExtend(db: Db, service: Charges.Service, service': Charges.Service)
    requires ServiceExtends(db, service, service') && CallsAgree(db, service)
    ensures CallsAgree(db, service')
  {
    forall c | c in service'.calls ensures ForSomeJob(db, service'.calls[c].row) {
      if c in service.calls {
        assert ForSomeJob(db, service.calls[c].row);
      }
    }
  }

  lemma ServiceKeepsTraced(s: Sys, service': Charges.Service)
    requires Traced(s) && Charges.ServiceInv(service') && ServiceExtends(s.db, s.service, service')
    ensures Traced(s.(service := service'))
  {
    PhasesExtend(s.db, s.service, service', s.tasks);
    CallsExtend(s.db, s.service, service');
  }

  lemma MoveExtends(db: Db, service: Charges.Service, m: Charges.Move)
    requires Charges.CanMove(service, m)
    requires m.Arrive? ==> ForSomeJob(db, Charges.Accept(m.id, m.header, m.body).row)
    ensures ServiceExtends(db, service, Charges.Moved(service, m))
  {
    forall id: Uuid, c: nat {
      Charges.MoveGrows(service, m, ChargeIdempotencyKey(id), c);
    }
    MoveAddsCall(service, m);
  }

  lemma MoveAddsCall(service: Charges.Service, m: Charges.Move)
    requires Charges.CanMove(service, m)
    ensures var calls' := Charges.Moved(service, m).calls;
      if m.Arrive? then calls' == service.calls[m.c := Charges.Accept(m.id, m.header, m.body)]
      else calls'.Keys == service.calls.Keys
  {
  }

  lemma ServeKeepsTraced(s: Sys, m: Charges.Move)
    requires Traced(s) && Charges.CanMove(s.service, m)
    requires m.Arrive? ==> ForSomeJob(s.db, Charges.Accept(m.id, m.header, m.body).row)
    ensures Traced(s.(service := Charges.Moved(s.service, m)))
  {
    Charges.MoveKeepsService(s.service, m);
    MoveExtends(s.db, s.service, m);
    ServiceKeepsTraced(s, Charges.Moved(s.service, m));
  }

  /** The request of a task is accepted, under its job's key and with its job's payload. */
  lemma RequestAccepted(k: AttemptId, call: nat, charge: Uuid, body: Json)
    requires ParseChargePayload(body).Ok?
    ensures var payload := ParseChargePayload(body).value;
      Charges.Accept(charge, Some(ChargeIdempotencyKey(k.job)), RequestBody(payload)) ==
        Charges.Call(Charges.ChargeRow(charge, ChargeIdempotencyKey(k.job), payload), Charges.Received)
  {
    KeyIsReadUnchanged(k.job);
    SameVerdictAtEveryStage(body);
  }

  lemma StartKeepsTraced(s: Sys, k: AttemptId, call: nat, charge: Uuid)
    requires Traced(s) && Possible(s, Start(k, call, charge))
    ensures Traced(Next(s, Start(k, call, charge)))
  {
    assert TaskAgrees(s.db, k, s.tasks[k]);
    var parsed := ParseChargePayload(s.tasks[k].payload);
    if parsed.Err? {
      PhaseKeepsTraced(s, k, Known(Failed(Permanent, InvalidPayload)));
    } else {
      var request := ChargeRequest(k, call, charge, parsed.value);
      RequestAccepted(k, call, charge, s.tasks[k].payload);
      assert ForSomeJob(s.db, Charges.ChargeRow(charge, ChargeIdempotencyKey(k.job), parsed.value));
      ServeKeepsTraced(s, request);
      MoveAddsCall(s.service, request);
      PhaseKeepsTraced(s.(service := Charges.Moved(s.service, request)), k, Waiting(call));
    }
  }

  // --- Task steps ---

  lemma TasksKeep(db: Db, tasks: map<AttemptId, Task>, k: AttemptId, phase: Phase)
    requires TasksAgree(db, tasks) && k in tasks
    ensures TasksAgree(db, tasks[k := tasks[k].(phase := phase)])
  {
    assert TaskAgrees(db, k, tasks[k]);
  }

  lemma PhasesKeep(service: Charges.Service, tasks: map<AttemptId, Task>, k: AttemptId, phase: Phase)
    requires PhasesAgree(service, tasks) && k in tasks && PhaseAgrees(service, k.job, phase)
    ensures PhasesAgree(service, tasks[k := tasks[k].(phase := phase)])
  {
  }

  lemma PhaseKeepsTraced(s: Sys, k: AttemptId, phase: Phase)
    requires Traced(s) && k in s.tasks && PhaseAgrees(s.service, k.job, phase)
    ensures Traced(SetPhase(s, k, phase))
  {
    TasksKeep(s.db, s.tasks, k, phase);
    PhasesKeep(s.service, s.tasks, k, phase);
  }

  lemma FinalizeKeepsTraced(s: Sys, k: AttemptId, v: Verdict, phase: Phase, finalized: Sys)
    requires Traced(s) && k in s.tasks && (phase.Finished? || phase.Crashed?)
    requires finalized == s.(db := Apply(s.db, Finalize(k.job, s.tasks[k].token, v)))
    ensures Traced(SetPhase(finalized, k, phase))
  {
    EventKeepsTraced(s, Finalize(k.job, s.tasks[k].token, v));
    PhaseKeepsTraced(finalized, k, phase);
  }

  lemma FinishKeepsTraced(s: Sys, k: AttemptId, delay: nat)
    requires Traced(s) && Possible(s, Finish(k, delay))
    ensures Traced(Next(s, Finish(k, delay)))
  {
    var v := VerdictFor(s.tasks[k].phase.result, k.number, s.tasks[k].maxAttempts, delay);
    FinalizeKeepsTraced(s, k, v, Finished, s.(db := FinalizeTx(s.db, k.job, s.tasks[k].token, v)));
  }

  lemma FailpointKeepsTraced(s: Sys, k: AttemptId)
    requires Traced(s) && Possible(s, FinishThenCrash(k))
    ensures Traced(Next(s, FinishThenCrash(k)))
  {
    var v := FailpointVerdict(s.tasks[k].phase.result);
    FinalizeKeepsTraced(s, k, v, Crashed, s.(db := FinalizeTx(s.db, k.job, s.tasks[k].token, v)));
  }

  lemma ActKeepsTraced(s: Sys, a: Act)
    requires Traced(s) && Possible(s, a)
    ensures Traced(Next(s, a))
  {
    match a
    case Database(e) => DatabaseKeepsTraced(s, e);
    case Start(k, call, charge) => StartKeepsTraced(s, k, call, charge);
    case Serve(m) => ServeKeepsTraced(s, m);
    case Respond(k) =>
      PhaseKeepsTraced(s, k, Known(ResultOf(Charges.StatusOf(s.service.calls[s.tasks[k].phase.call].stage.reply))));
    case LoseResponse(k) => PhaseKeepsTraced(s, k, Known(Failed(Ambiguous, DownstreamUnreachable)));
    case Finish(k, delay) => FinishKeepsTraced(s, k, delay);
    case FinishThenCrash(k) => FailpointKeepsTraced(s, k);
    case Crash(k) => PhaseKeepsTraced(s, k, Crashed);
  }

  lemma ActKeepsSys(s: Sys, a: Act)
    requires SysInv(s) && Possible(s, a)
    ensures SysInv(Next(s, a))
  {
    ActKeepsTraced(s, a);
    StepIsDbRun(s, a);
    RunKeepsInv(s.db, DbEvents(s, a));
  }

  lemma {:induction false} ScheduleKeepsSys(s: Sys, acts: seq<Act>)
    requires SysInv(s) && Schedulable(s, acts)
    ensures SysInv(Final(s, acts))
    decreases |acts|
  {
    if acts != [] {
      ActKeepsSys(s, acts[0]);
      ScheduleKeepsSys(Next(s, acts[0]), acts[1..]);
    }
  }

  // --- The guarantee ---

  /** Every charge row is some job's, with that job's payload. */
  lemma ChargesAreForJobs(s: Sys, row: Charges.ChargeRow)
    requires Traced(s) && row in s.service.rows
    ensures ForSomeJob(s.db, row)
  {
    assert Charges.Owned(s.service, row);
    var c :| c in s.service.calls && s.service.calls[c].row == row;
    assert ForSomeJob(s.db, s.service.calls[c].row);
  }

  /** A row under a job's own key carries that job's own payload. */
  lemma OwnPayload(db: Db, row: Charges.ChargeRow, id: Uuid)
    requires ForSomeJob(db, row) && id in db.jobs && row.key == ChargeIdempotencyKey(id)
    ensures ParseChargePayload(db.jobs[id].payload) == Ok(row.payload)
  {
    var job :| job in db.jobs && row.key == ChargeIdempotencyKey(job) && ParseChargePayload(db.jobs[job].payload) == Ok(row.payload);
    KeyInjective(job, id);
  }

  /** At most one charge row for the job, carrying its own payload. */
  ghost predicate ChargedAtMostOnce(s: Sys, id: Uuid)
    requires id in s.db.jobs
  {
    var rows := s.service.rows;
    var key := ChargeIdempotencyKey(id);
    && (forall i, j :: 0 <= i < |rows| && 0 <= j < |rows| && rows[i].key == key && rows[j].key == key ==> i == j)
    && (forall row :: row in rows && row.key == key ==> ParseChargePayload(s.db.jobs[id].payload) == Ok(row.payload))
  }

  /**
   After every schedule each job is charged at most once, and for what it asked. Crashes, stale workers, late
   requests, lost responses, injected answers of any status and operator retries are all included.
   */
  lemma AtMostOneCharge(policy: RetryPolicy, acts: seq<Act>, id: Uuid)
    requires Schedulable(Initial(policy), acts) && id in Final(Initial(policy), acts).db.jobs
    ensures ChargedAtMostOnce(Final(Initial(policy), acts), id)
  {
    ScheduleKeepsSys(Initial(policy), acts);
    TracedChargesOnce(Final(Initial(policy), acts), id);
  }

  lemma TracedChargesOnce(s: Sys, id: Uuid)
    requires Traced(s) && id in s.db.jobs
    ensures ChargedAtMostOnce(s, id)
  {
    forall row | row in s.service.rows && row.key == ChargeIdempotencyKey(id)
      ensures ParseChargePayload(s.db.jobs[id].payload) == Ok(row.payload)
    {
      ChargesAreForJobs(s, row);
      OwnPayload(s.db, row, id);
    }
  }

  // --- From submission to charge ---

  lemma ActKeepsPayload(s: Sys, a: Act, id: Uuid)
    requires SysInv(s) && Possible(s, a) && id in s.db.jobs
    ensures id in Next(s, a).db.jobs && Next(s, a).db.jobs[id].payload == s.db.jobs[id].payload
  {
    StepIsDbRun(s, a);
    if DbEvents(s, a) != [] {
      OneEvent(s.db, DbEvents(s, a)[0]);
      EventKeeps(s.db, DbEvents(s, a)[0]);
    }
  }

  lemma {:induction false} ScheduleKeepsPayload(s: Sys, acts: seq<Act>, id: Uuid)
    requires SysInv(s) && Schedulable(s, acts) && id in s.db.jobs
    ensures id in Final(s, acts).db.jobs && Final(s, acts).db.jobs[id].payload == s.db.jobs[id].payload
    decreases |acts|
  {
    if acts != [] {
      ActKeepsPayload(s, acts[0], id);
      ActKeepsSys(s, acts[0]);
      ScheduleKeepsPayload(Next(s, acts[0]), acts[1..], id);
    }
  }

  /** The job has this payload, and whatever was charged under its key is exactly this customer, amount and currency. */
  ghost predicate CarriesSubmission(s: Sys, id: Uuid, payload: Json) {
    && id in s.db.jobs && s.db.jobs[id].payload == payload
    && forall row :: row in s.service.rows && row.key == ChargeIdempotencyKey(id) ==>
         && ParseChargePayload(payload).Ok? && !payload.OtherShape?
         && row.payload.customerId == payload.customerId && row.payload.amountCents == payload.amountCents
         && row.payload.currency == payload.currency
  }

  lemma TracedCarries(s: Sys, id: Uuid)
    requires Traced(s) && id in s.db.jobs
    ensures CarriesSubmission(s, id, s.db.jobs[id].payload)
  {
    TracedChargesOnce(s, id);
    AcceptedExactly(s.db.jobs[id].payload);
  }

  lemma SubmissionIsStored(s: Sys, id: Uuid, payload: Json, budget: int)
    requires SysInv(s) && id !in s.db.jobs && id in Next(s, Database(Insert(id, payload, budget))).db.jobs
    ensures SysInv(Next(s, Database(Insert(id, payload, budget))))
    ensures Next(s, Database(Insert(id, payload, budget))).db.jobs[id].payload == payload
  {
    ActKeepsSys(s, Database(Insert(id, payload, budget)));
  }

  /** From any state, if the next step submits a job that was not there, every later state carries the submission. */
  lemma SubmissionCarried(s: Sys, id: Uuid, payload: Json, budget: int, later: seq<Act>)
    requires SysInv(s) && id !in s.db.jobs && id in Next(s, Database(Insert(id, payload, budget))).db.jobs
    requires Schedulable(Next(s, Database(Insert(id, payload, budget))), later)
    ensures CarriesSubmission(Final(Next(s, Database(Insert(id, payload, budget))), later), id, payload)
  {
    var submitted := Next(s, Database(Insert(id, payload, budget)));
    SubmissionIsStored(s, id, payload, budget);
    ScheduleKeepsPayload(submitted, later, id);
    ScheduleKeepsSys(submitted, later);
    TracedCarries(Final(submitted, later), id);
  }

  /** And so from the start, whatever happened before. */
  lemma SubmittedIsCharged(policy: RetryPolicy, before: seq<Act>, id: Uuid, payload: Json, budget: int, later: seq<Act>)
    requires Schedulable(Initial(policy), before) && id !in Final(Initial(policy), before).db.jobs
    requires var submitted := Next(Final(Initial(policy), before), Database(Insert(id, payload, budget)));
      id in submitted.db.jobs && Schedulable(submitted, later)
    ensures var submitted := Next(Final(Initial(policy), before), Database(Insert(id, payload, budget)));
      CarriesSubmission(Final(submitted, later), id, payload)
  {
    ScheduleKeepsSys(Initial(policy), before);
    SubmissionCarried(Final(Initial(policy), before), id, payload, budget, later);
  }

  // --- SUCCEEDED means charged, and exactly when ---

  ghost predicate SuccessIsCharged(db: Db, rows: seq<Charges.ChargeRow>) {
    forall id :: id in db.jobs && db.jobs[id].status.Succeeded? ==> HasCharge(rows, id)
  }

  ghost predicate BeliefIsCharged(tasks: map<AttemptId, Task>, rows: seq<Charges.ChargeRow>) {
    forall k :: k in tasks && tasks[k].phase == Known(Charged) ==> HasCharge(rows, k.job)
  }

  /** Neither a job's status nor a worker about to finalize claims a charge that is not in the table. */
  ghost predicate SuccessIsReal(s: Sys) {
    SuccessIsCharged(s.db, s.service.rows) && BeliefIsCharged(s.tasks, s.service.rows)
  }

  /** A worker receives an injected success status while its job has no charge. */
  predicate FalseSuccess(s: Sys, a: Act) {
    && a.Respond? && a.k in s.tasks && s.tasks[a.k].phase.Waiting? && s.tasks[a.k].phase.call in s.service.calls
    && var stage := s.service.calls[s.tasks[a.k].phase.call].stage;
    && stage.Answered? && stage.reply.Injected? && IsSuccess(stage.reply.status)
    && !HasCharge(s.service.rows, a.k.job)
  }

  /** A success status that was not injected is only ever given to a request whose row is in the table. */
  lemma SuccessMeansStored(service: Charges.Service, c: nat)
    requires Charges.ServiceInv(service) && c in service.calls && service.calls[c].stage.Answered?
    requires IsSuccess(Charges.StatusOf(service.calls[c].stage.reply)) && !service.calls[c].stage.reply.Injected?
    ensures Charges.FindByIdempotencyKey(service.rows, service.calls[c].row.key).Some?
  {
    assert Charges.CallAgrees(service.rows, service.calls[c]);
  }

  lemma ClaimMakesNoSuccess(db: Db, tokens: map<Uuid, Token>, lease: nat, locked: set<Uuid>, db': Db,
                            rows: seq<Charges.ChargeRow>)
    requires JobsClaimed(db, tokens, lease, locked, db') && SuccessIsCharged(db, rows)
    ensures SuccessIsCharged(db', rows)
  {
  }

  lemma QuietEventMakesNoSuccess(db: Db, e: Event, rows: seq<Charges.ChargeRow>)
    requires Enabled(db, e) && SuccessIsCharged(db, rows) && !e.Claim? && !e.Finalize?
    ensures SuccessIsCharged(Apply(db, e), rows)
  {
  }

  /** A finalizer keeps SUCCEEDED jobs charged exactly when it does not make an uncharged job SUCCEEDED. */
  lemma FinalizeSuccessExactly(db: Db, id: Uuid, token: Token, v: Verdict, rows: seq<Charges.ChargeRow>)
    requires SuccessIsCharged(db, rows)
    ensures SuccessIsCharged(FinalizeTx(db, id, token, v), rows) <==> !(v.Success? && Held(db, id, token) && !HasCharge(rows, id))
  {
    if v.Success? && Held(db, id, token) {
      assert FinalizeTx(db, id, token, v).jobs[id].status.Succeeded?;
    }
  }

  lemma EventSuccessExactly(db: Db, e: Event, rows: seq<Charges.ChargeRow>)
    requires Enabled(db, e) && SuccessIsCharged(db, rows)
    ensures SuccessIsCharged(Apply(db, e), rows) <==>
      !(e.Finalize? && e.verdict.Success? && Held(db, e.id, e.token) && !HasCharge(rows, e.id))
  {
    if e.Claim? {
      ClaimedJobs(db, e.tokens, e.worker, e.lease, e.locked);
      ClaimMakesNoSuccess(db, e.tokens, e.lease, e.locked, Apply(db, e), rows);
    } else if e.Finalize? {
      FinalizeSuccessExactly(db, e.id, e.token, e.verdict, rows);
    } else {
      QuietEventMakesNoSuccess(db, e, rows);
    }
  }

  /** The job's current holder finalizes a success for which there is no charge. */
  predicate FinalizesUncharged(s: Sys, a: Act) {
    && (a.Finish? || a.FinishThenCrash?) && a.k in s.tasks && s.tasks[a.k].phase == Known(Charged)
    && Held(s.db, a.k.job, s.tasks[a.k].token) && !HasCharge(s.service.rows, a.k.job)
  }

  lemma ActSuccessInDb(s: Sys, a: Act)
    requires SuccessIsCharged(s.db, s.service.rows) && Possible(s, a)
    ensures SuccessIsCharged(Next(s, a).db, s.service.rows) <==> !FinalizesUncharged(s, a)
  {
    StepIsDbRun(s, a);
    if DbEvents(s, a) != [] {
      var e := DbEvents(s, a)[0];
      OneEvent(s.db, e);
      EventSuccessExactly(s.db, e, s.service.rows);
    }
  }

  lemma DatabaseLeavesService(s: Sys, a: Act)
    requires Possible(s, a) && (a.Finish? || a.FinishThenCrash?)
    ensures Next(s, a).service == s.service
  {
  }

  /** One step keeps every SUCCEEDED job charged exactly when it is not such a finalizer. */
  lemma ChargedStep(s: Sys, a: Act)
    requires SuccessIsCharged(s.db, s.service.rows) && Possible(s, a)
    ensures SuccessIsCharged(Next(s, a).db, Next(s, a).service.rows) <==> !FinalizesUncharged(s, a)
  {
    ActSuccessInDb(s, a);
    if FinalizesUncharged(s, a) {
      DatabaseLeavesService(s, a);
    } else {
      forall id: Uuid | HasCharge(s.service.rows, id) ensures HasCharge(Next(s, a).service.rows, id) {
        ActKeepsCharges(s, a, id);
      }
      MoreCharges(Next(s, a).db, map[], s.service.rows, Next(s, a).service.rows);
    }
  }

  ghost predicate AlwaysCharged(s: Sys, acts: seq<Act>)
    requires Schedulable(s, acts)
    decreases |acts|
  {
    SuccessIsCharged(s.db, s.service.rows) && (acts == [] || AlwaysCharged(Next(s, acts[0]), acts[1..]))
  }

  ghost predicate NeverFinalizesUncharged(s: Sys, acts: seq<Act>)
    requires Schedulable(s, acts)
    decreases |acts|
  {
    acts == [] || (!FinalizesUncharged(s, acts[0]) && NeverFinalizesUncharged(Next(s, acts[0]), acts[1..]))
  }

  /** Every SUCCEEDED job has its charge in every state of a schedule, if and only if no step of it is such a finalizer. */
  lemma {:induction false} ChargedExactly(s: Sys, acts: seq<Act>)
    requires SuccessIsCharged(s.db, s.service.rows) && Schedulable(s, acts)
    ensures AlwaysCharged(s, acts) <==> NeverFinalizesUncharged(s, acts)
    ensures AlwaysCharged(s, acts) ==> SuccessIsCharged(Final(s, acts).db, Final(s, acts).service.rows)
    decreases |acts|
  {
    if acts != [] {
      ChargedStep(s, acts[0]);
      if !FinalizesUncharged(s, acts[0]) {
        ChargedExactly(Next(s, acts[0]), acts[1..]);
      }
    }
  }

  /** The answer a worker receives is a success only if it was injected or its charge is in the table. */
  lemma AnswerIsReal(s: Sys, k: AttemptId)
    requires SysInv(s) && Possible(s, Respond(k)) && !FalseSuccess(s, Respond(k))
    ensures var reply := s.service.calls[s.tasks[k].phase.call].stage.reply;
      ResultOf(Charges.StatusOf(reply)).Charged? ==> HasCharge(s.service.rows, k.job)
  {
    var c := s.tasks[k].phase.call;
    assert PhaseAgrees(s.service, k.job, s.tasks[k].phase);
    if IsSuccess(Charges.StatusOf(s.service.calls[c].stage.reply)) && !s.service.calls[c].stage.reply.Injected? {
      SuccessMeansStored(s.service, c);
    }
  }

  /** Any other step gives no worker a success. */
  lemma QuietActKeepsBelief(s: Sys, a: Act, rows: seq<Charges.ChargeRow>)
    requires BeliefIsCharged(s.tasks, rows) && Possible(s, a) && !a.Respond?
    ensures BeliefIsCharged(Next(s, a).tasks, rows)
  {
  }

  lemma ActKeepsBelief(s: Sys, a: Act)
    requires SysInv(s) && BeliefIsCharged(s.tasks, s.service.rows) && Possible(s, a) && !FalseSuccess(s, a)
    ensures BeliefIsCharged(Next(s, a).tasks, s.service.rows)
  {
    if a.Respond? {
      AnswerIsReal(s, a.k);
      RespondKeepsBelief(s, a.k, ResultOf(Charges.StatusOf(s.service.calls[s.tasks[a.k].phase.call].stage.reply)));
    } else {
      QuietActKeepsBelief(s, a, s.service.rows);
    }
  }

  lemma RespondKeepsBelief(s: Sys, k: AttemptId, r: ChargeResult)
    requires BeliefIsCharged(s.tasks, s.service.rows) && k in s.tasks && (r.Charged? ==> HasCharge(s.service.rows, k.job))
    ensures BeliefIsCharged(SetPhase(s, k, Known(r)).tasks, s.service.rows)
  {
  }

  lemma ActKeepsCharges(s: Sys, a: Act, id: Uuid)
    requires Possible(s, a) && HasCharge(s.service.rows, id)
    ensures HasCharge(Next(s, a).service.rows, id)
  {
    match a
    case Serve(m) => Charges.MoveGrows(s.service, m, ChargeIdempotencyKey(id), 0);
    case _ =>
  }

  lemma MoreCharges(db: Db, tasks: map<AttemptId, Task>, rows: seq<Charges.ChargeRow>, rows': seq<Charges.ChargeRow>)
    requires SuccessIsCharged(db, rows) && BeliefIsCharged(tasks, rows)
    requires forall id: Uuid :: HasCharge(rows, id) ==> HasCharge(rows', id)
    ensures SuccessIsCharged(db, rows') && BeliefIsCharged(tasks, rows')
  {
  }

  lemma FalseSuccessIsBelieved(s: Sys, a: Act)
    requires Possible(s, a) && FalseSuccess(s, a)
    ensures !SuccessIsReal(Next(s, a))
  {
    assert Next(s, a).tasks[a.k].phase == Known(Charged);
  }

  /** One step keeps successes real exactly when it is not a false success. */
  lemma SuccessStep(s: Sys, a: Act)
    requires SysInv(s) && SuccessIsReal(s) && Possible(s, a)
    ensures SuccessIsReal(Next(s, a)) <==> !FalseSuccess(s, a)
  {
    if FalseSuccess(s, a) {
      FalseSuccessIsBelieved(s, a);
    } else {
      ActSuccessInDb(s, a);
      ActKeepsBelief(s, a);
      forall id: Uuid | HasCharge(s.service.rows, id) ensures HasCharge(Next(s, a).service.rows, id) {
        ActKeepsCharges(s, a, id);
      }
      MoreCharges(Next(s, a).db, Next(s, a).tasks, s.service.rows, Next(s, a).service.rows);
    }
  }

  ghost predicate AlwaysReal(s: Sys, acts: seq<Act>)
    requires Schedulable(s, acts)
    decreases |acts|
  {
    SuccessIsReal(s) && (acts == [] || AlwaysReal(Next(s, acts[0]), acts[1..]))
  }

  ghost predicate NeverFalseSuccess(s: Sys, acts: seq<Act>)
    requires Schedulable(s, acts)
    decreases |acts|
  {
    acts == [] || (!FalseSuccess(s, acts[0]) && NeverFalseSuccess(Next(s, acts[0]), acts[1..]))
  }

  /** Successes are real in every state of a schedule if and only if no step of it is a false success. */
  lemma {:induction false} RealExactly(s: Sys, acts: seq<Act>)
    requires SysInv(s) && SuccessIsReal(s) && Schedulable(s, acts)
    ensures AlwaysReal(s, acts) <==> NeverFalseSuccess(s, acts)
    ensures NeverFalseSuccess(s, acts) ==> SuccessIsReal(Final(s, acts))
    decreases |acts|
  {
    if acts != [] {
      SuccessStep(s, acts[0]);
      if !FalseSuccess(s, acts[0]) {
        ActKeepsSys(s, acts[0]);
        RealExactly(Next(s, acts[0]), acts[1..]);
      }
    }
  }

  /** From the start and with no false success: a SUCCEEDED job has a charge row. */
  lemma SucceededIsCharged(policy: RetryPolicy, acts: seq<Act>, id: Uuid)
    requires Schedulable(Initial(policy), acts) && NeverFalseSuccess(Initial(policy), acts)
    requires id in Final(Initial(policy), acts).db.jobs && Final(Initial(policy), acts).db.jobs[id].status.Succeeded?
    ensures exists row :: row in Final(Initial(policy), acts).service.rows && row.key == ChargeIdempotencyKey(id)
  {
    RealExactly(Initial(policy), acts);
    assert HasCharge(Final(Initial(policy), acts).service.rows, id);
  }

  /** A false success of the job's current holder is two steps from a SUCCEEDED job without a charge. */
  lemma FalseSuccessSurfaces(s: Sys, k: AttemptId)
    requires SysInv(s) && FalseSuccess(s, Respond(k)) && Held(s.db, k.job, s.tasks[k].token)
    ensures Possible(s, Respond(k)) && Possible(Next(s, Respond(k)), Finish(k, 0))
    ensures var end := Next(Next(s, Respond(k)), Finish(k, 0));
      k.job in end.db.jobs && end.db.jobs[k.job].status.Succeeded? && !HasCharge(end.service.rows, k.job)
  {
    assert TaskAgrees(s.db, k, s.tasks[k]);
  }

  // --- A schedule with a false success ---

  /** One job, claimed once; its worker waits for its request, and nothing was charged. */
  ghost predicate WaitingAlone(s: Sys) {
    var k := AttemptId(0, 1);
    && k in s.tasks && s.tasks[k] == Task(1, 2, SAMPLE, Waiting(0))
    && Held(s.db, 0, 1) && s.db.jobs[0].attempts == 1 && s.db.jobs[0].maxAttempts == 2
    && s.service.rows == [] && 0 in s.service.calls && s.service.calls[0].stage.Received?
  }

  lemma OneNewTask(db: Db, db': Db, id: Uuid, token: Token)
    requires id in db.jobs && id in db'.jobs
    ensures var k := AttemptId(id, db'.jobs[id].attempts);
      NewTasks(db, db', map[id := token]) == map[k := Task(token, db'.jobs[id].maxAttempts, db'.jobs[id].payload, Claimed)]
  {
    var tokens: map<Uuid, Token> := map[id := token];
    assert tokens.Keys == {id};
    assert NewAttemptIds(db'.jobs, tokens.Keys) == {AttemptId(id, db'.jobs[id].attempts)};
  }

  /** The job is claimed, by the worker alone, and nothing was sent yet. */
  ghost predicate ReadyToSend(s: Sys) {
    && AttemptId(0, 1) in s.tasks && s.tasks[AttemptId(0, 1)] == Task(1, 2, SAMPLE, Claimed)
    && Held(s.db, 0, 1) && s.db.jobs[0].attempts == 1 && s.db.jobs[0].maxAttempts == 2
    && s.service == Charges.Service([], map[])
  }

  lemma ClaimStep(s: Sys, e: Event)
    requires e == Fencing.ClaimAlone(0, 1) && Enabled(s.db, e)
    ensures Possible(s, Database(e))
    ensures Next(s, Database(e)) == s.(db := Apply(s.db, e), tasks := s.tasks + NewTasks(s.db, Apply(s.db, e), e.tokens))
  {
  }

  lemma ClaimedAlone(s: Sys)
    requires s.db == InsertTx(EMPTY, 0, SAMPLE, 2) && s.service == Charges.Service([], map[])
    ensures Possible(s, Database(Fencing.ClaimAlone(0, 1)))
    ensures ReadyToSend(Next(s, Database(Fencing.ClaimAlone(0, 1))))
  {
    var e := Fencing.ClaimAlone(0, 1);
    Fencing.AloneIsHeld(s.db, 0, 1);
    ClaimStep(s, e);
    OneNewTask(s.db, Apply(s.db, e), 0, 1);
    ReadyAfterClaim(s, Apply(s.db, e), Next(s, Database(e)));
  }

  lemma ReadyAfterClaim(s: Sys, claimed: Db, s': Sys)
    requires s.service == Charges.Service([], map[]) && Held(claimed, 0, 1)
    requires claimed.jobs[0].attempts == 1 && claimed.jobs[0].maxAttempts == 2 && claimed.jobs[0].payload == SAMPLE
    requires s' == s.(db := claimed, tasks := s.tasks + map[AttemptId(0, 1) := Task(1, 2, SAMPLE, Claimed)])
    ensures ReadyToSend(s')
  {
  }

  lemma RequestSent(s: Sys)
    requires ReadyToSend(s)
    ensures Possible(s, Start(AttemptId(0, 1), 0, 0)) && WaitingAlone(Next(s, Start(AttemptId(0, 1), 0, 0)))
  {
    SampleParses();
    RequestAccepted(AttemptId(0, 1), 0, 0, SAMPLE);
  }

  lemma WaitingReached(policy: RetryPolicy) returns (acts: seq<Act>)
    ensures Schedulable(Initial(policy), acts) && WaitingAlone(Final(Initial(policy), acts))
  {
    var start := Initial(policy);
    acts := Then(start, [], Database(Insert(0, SAMPLE, 2)));
    ClaimedAlone(Final(start, acts));
    acts := Then(start, acts, Database(Fencing.ClaimAlone(0, 1)));
    RequestSent(Final(start, acts));
    acts := Then(start, acts, Start(AttemptId(0, 1), 0, 0));
  }

  lemma InjectedSuccess(s: Sys)
    requires WaitingAlone(s)
    ensures Possible(s, Serve(Charges.Inject(0, 200)))
    ensures var s' := Next(s, Serve(Charges.Inject(0, 200)));
      FalseSuccess(s', Respond(AttemptId(0, 1))) && Held(s'.db, 0, s'.tasks[AttemptId(0, 1)].token)
  {
  }

  /** If the service injects a 200, the job ends SUCCEEDED and nothing was charged. */
  lemma FalseSuccessHappens(policy: RetryPolicy) returns (acts: seq<Act>)
    ensures Schedulable(Initial(policy), acts)
    ensures var s := Final(Initial(policy), acts);
      0 in s.db.jobs && s.db.jobs[0].status.Succeeded? && !HasCharge(s.service.rows, 0)
  {
    var start := Initial(policy);
    acts := WaitingReached(policy);
    InjectedSuccess(Final(start, acts));
    acts := Then(start, acts, Serve(Charges.Inject(0, 200)));
    ScheduleKeepsSys(start, acts);
    FalseSuccessSurfaces(Final(start, acts), AttemptId(0, 1));
    acts := Then(start, acts, Respond(AttemptId(0, 1)));
    acts := Then(start, acts, Finish(AttemptId(0, 1), 0));
  }
}
