/**
 Why jobs die, and that workers never strand one. A worker's budget test uses its claim-time snapshot;
 fencing makes that snapshot current whenever the finalizer takes effect.
 */
module Reasons {
  import opened Core
  import opened Validation
  import opened Failure
  import opened Idempotency
  import opened Queue
  import opened Audit
  import opened Progress
  import opened Backoff
  import opened Protocol
  import opened ExactlyOnce
  import Charges

  // --- Budget over the whole system ---

  /** An operator retry that takes effect must grant more than was spent. */
  predicate GrantsBudget(db: Db, a: Act) {
    a.Database? && a.e.Replay? && a.e.id in db.jobs && db.jobs[a.e.id].status.Dead? ==>
      db.jobs[a.e.id].attempts != a.e.budget
  }

  lemma WorkersKeepBudget(s: Sys, a: Act, e: Event)
    requires SysInv(s) && Possible(s, a) && e in DbEvents(s, a)
    ensures KeepsBudget(s.db, e) <==> GrantsBudget(s.db, a)
  {
    if a.Finish? {
      assert TaskAgrees(s.db, a.k, s.tasks[a.k]);
    }
  }

  lemma ActKeepsUnstranded(s: Sys, a: Act)
    requires SysInv(s) && NoneStranded(s.db) && Possible(s, a)
    ensures NoneStranded(Next(s, a).db) <==> GrantsBudget(s.db, a)
  {
    StepIsDbRun(s, a);
    if DbEvents(s, a) != [] {
      var e := DbEvents(s, a)[0];
      WorkersKeepBudget(s, a, e);
      OneEvent(s.db, e);
      StrandedStep(s.db, e);
    }
  }

  ghost predicate AlwaysGrantsBudget(s: Sys, acts: seq<Act>)
    requires Schedulable(s, acts)
    decreases |acts|
  {
    acts == [] || (GrantsBudget(s.db, acts[0]) && AlwaysGrantsBudget(Next(s, acts[0]), acts[1..]))
  }

  ghost predicate AlwaysUnstranded(s: Sys, acts: seq<Act>)
    requires Schedulable(s, acts)
    decreases |acts|
  {
    NoneStranded(s.db) && (acts == [] || AlwaysUnstranded(Next(s, acts[0]), acts[1..]))
  }

  /**
   Whatever workers, crashes and late calls do, no job is PENDING without budget in any state of a schedule, if
   and only if every operator retry in it that takes effect grants budget.
   */
  lemma {:induction false} OnlyRetriesStrand(s: Sys, acts: seq<Act>)
    requires SysInv(s) && NoneStranded(s.db) && Schedulable(s, acts)
    ensures AlwaysUnstranded(s, acts) <==> AlwaysGrantsBudget(s, acts)
    ensures AlwaysGrantsBudget(s, acts) ==> NoneStranded(Final(s, acts).db)
    decreases |acts|
  {
    if acts != [] {
      ActKeepsUnstranded(s, acts[0]);
      if GrantsBudget(s.db, acts[0]) {
        ActKeepsSys(s, acts[0]);
        OnlyRetriesStrand(Next(s, acts[0]), acts[1..]);
      }
    }
  }

  // --- Truthful reasons ---

  predicate IsBudgetCode(c: Option<ErrorCode>) {
    c == Some(RetryBudgetExhausted) || c == Some(LeaseExpiredBudgetExhausted)
  }

  /** A job that shows a budget-exhaustion code is DEAD and has spent every attempt. */
  ghost predicate ReasonsTrue(db: Db) {
    forall id :: id in db.jobs && IsBudgetCode(db.jobs[id].lastError) ==>
      db.jobs[id].status.Dead? && db.jobs[id].attempts == db.jobs[id].maxAttempts
  }

  /** Workers never blame the budget for what the charge call returned. */
  ghost predicate HonestTasks(tasks: map<AttemptId, Task>) {
    forall k :: k in tasks && tasks[k].phase.Known? && tasks[k].phase.result.Failed? ==>
      !IsBudgetCode(Some(tasks[k].phase.result.code))
  }

  /** A finalizer writes a budget code only as a burial of a job that has spent everything. */
  predicate HonestVerdict(db: Db, e: Event) {
    e.Finalize? && Held(db, e.id, e.token) ==>
      && (e.verdict.Retry? ==> !IsBudgetCode(Some(e.verdict.code)))
      && (e.verdict.Bury? && IsBudgetCode(Some(e.verdict.reason)) ==>
            db.jobs[e.id].attempts == db.jobs[e.id].maxAttempts)
  }

  lemma EventKeepsReasons(db: Db, e: Event)
    requires Inv(db) && ReasonsTrue(db) && Enabled(db, e) && HonestVerdict(db, e)
    ensures ReasonsTrue(Apply(db, e))
  {
    match e
    case Claim(tokens, worker, lease, locked) =>
      ClaimedJobs(db, tokens, worker, lease, locked);
      ClaimKeepsReasons(db, tokens, lease, locked, ClaimTx(db, tokens, worker, lease, locked));
    case Finalize(_, _, _) =>
    case Tick(_) =>
    case Insert(_, _, _) =>
    case Renew(_, _, _) =>
    case Replay(_, _) =>
  }

  lemma ClaimKeepsReasons(db: Db, tokens: map<Uuid, Token>, lease: nat, locked: set<Uuid>, db': Db)
    requires Schema(db) && ReasonsTrue(db) && JobsClaimed(db, tokens, lease, locked, db')
    requires forall id :: id in tokens ==> id in db.jobs && Claimable(db.jobs[id], db.now)
    ensures ReasonsTrue(db')
  {
    forall id | id in db'.jobs && IsBudgetCode(db'.jobs[id].lastError)
      ensures db'.jobs[id].status.Dead? && db'.jobs[id].attempts == db'.jobs[id].maxAttempts
    {
      assert SatisfiesChecks(db.jobs[id]);
    }
  }

  lemma ActIsHonest(s: Sys, a: Act, e: Event)
    requires SysInv(s) && HonestTasks(s.tasks) && Possible(s, a) && !a.FinishThenCrash? && e in DbEvents(s, a)
    ensures HonestVerdict(s.db, e)
  {
    if a.Finish? && Held(s.db, a.k.job, s.tasks[a.k].token) {
      assert TaskAgrees(s.db, a.k, s.tasks[a.k]);
      assert SatisfiesChecks(s.db.jobs[a.k.job]);
    }
  }

  lemma ActKeepsHonest(s: Sys, a: Act)
    requires HonestTasks(s.tasks) && Possible(s, a)
    ensures HonestTasks(Next(s, a).tasks)
  {
  }

  /**
   The crash point in the middle of finalizing fires for the job's current holder, after a failure worth another
   attempt and before the last one.
   */
  predicate Misreports(s: Sys, a: Act) {
    && a.FinishThenCrash? && a.k in s.tasks && s.tasks[a.k].phase.Known? && s.tasks[a.k].phase.result.Failed?
    && IsRetryable(s.tasks[a.k].phase.result.kind)
    && Held(s.db, a.k.job, s.tasks[a.k].token) && a.k.number < s.tasks[a.k].maxAttempts
  }

  lemma FailpointIsHonest(s: Sys, k: AttemptId)
    requires SysInv(s) && HonestTasks(s.tasks) && Possible(s, FinishThenCrash(k)) && !Misreports(s, FinishThenCrash(k))
    ensures HonestVerdict(s.db, Finalize(k.job, s.tasks[k].token, FailpointVerdict(s.tasks[k].phase.result)))
  {
    if Held(s.db, k.job, s.tasks[k].token) {
      assert TaskAgrees(s.db, k, s.tasks[k]);
      assert SatisfiesChecks(s.db.jobs[k.job]);
    }
  }

  lemma ActKeepsReasons(s: Sys, a: Act)
    requires SysInv(s) && ReasonsTrue(s.db) && HonestTasks(s.tasks) && Possible(s, a) && !Misreports(s, a)
    ensures ReasonsTrue(Next(s, a).db)
  {
    StepIsDbRun(s, a);
    if DbEvents(s, a) != [] {
      var e := DbEvents(s, a)[0];
      if a.FinishThenCrash? {
        FailpointIsHonest(s, a.k);
      } else {
        ActIsHonest(s, a, e);
      }
      OneEvent(s.db, e);
      EventKeepsReasons(s.db, e);
    }
  }

  /** Misreporting buries as exhausted a job that has budget left. */
  lemma FailpointMisreports(s: Sys, k: AttemptId)
    requires SysInv(s) && Misreports(s, FinishThenCrash(k))
    ensures Possible(s, FinishThenCrash(k))
    ensures var db' := Next(s, FinishThenCrash(k)).db;
      && k.job in db'.jobs && db'.jobs[k.job].status.Dead? && db'.jobs[k.job].lastError == Some(RetryBudgetExhausted)
      && db'.jobs[k.job].attempts < db'.jobs[k.job].maxAttempts
  {
    assert TaskAgrees(s.db, k, s.tasks[k]);
  }

  /** One step keeps the budget codes true exactly when it does not misreport. */
  lemma ReasonsStep(s: Sys, a: Act)
    requires SysInv(s) && ReasonsTrue(s.db) && HonestTasks(s.tasks) && Possible(s, a)
    ensures ReasonsTrue(Next(s, a).db) <==> !Misreports(s, a)
  {
    if Misreports(s, a) {
      FailpointMisreports(s, a.k);
    } else {
      ActKeepsReasons(s, a);
    }
  }

  ghost predicate AlwaysTrueReasons(s: Sys, acts: seq<Act>)
    requires Schedulable(s, acts)
    decreases |acts|
  {
    ReasonsTrue(s.db) && (acts == [] || AlwaysTrueReasons(Next(s, acts[0]), acts[1..]))
  }

  ghost predicate NeverMisreports(s: Sys, acts: seq<Act>)
    requires Schedulable(s, acts)
    decreases |acts|
  {
    acts == [] || (!Misreports(s, acts[0]) && NeverMisreports(Next(s, acts[0]), acts[1..]))
  }

  /** Both budget-exhaustion codes mean what they say in every state of a schedule, if and only if no step of it misreports. */
  lemma {:induction false} BudgetCodesAreTrue(s: Sys, acts: seq<Act>)
    requires SysInv(s) && ReasonsTrue(s.db) && HonestTasks(s.tasks) && Schedulable(s, acts)
    ensures AlwaysTrueReasons(s, acts) <==> NeverMisreports(s, acts)
    ensures NeverMisreports(s, acts) ==> ReasonsTrue(Final(s, acts).db)
    decreases |acts|
  {
    if acts != [] {
      ReasonsStep(s, acts[0]);
      if !Misreports(s, acts[0]) {
        ActKeepsSys(s, acts[0]);
        ActKeepsHonest(s, acts[0]);
        BudgetCodesAreTrue(Next(s, acts[0]), acts[1..]);
      }
    }
  }

  /** The production path has no failpoint, so it never misreports. */
  lemma {:induction false} ProductionNeverMisreports(s: Sys, acts: seq<Act>)
    requires Schedulable(s, acts) && forall a :: a in acts ==> !a.FinishThenCrash?
    ensures NeverMisreports(s, acts)
    decreases |acts|
  {
    if acts != [] {
      assert acts[0] in acts;
      ProductionNeverMisreports(Next(s, acts[0]), acts[1..]);
    }
  }

  lemma LostThenMisreports(s: Sys)
    requires WaitingAlone(s)
    ensures Possible(s, LoseResponse(AttemptId(0, 1)))
    ensures Misreports(Next(s, LoseResponse(AttemptId(0, 1))), FinishThenCrash(AttemptId(0, 1)))
  {
  }

  /** A schedule that misreports: a lost response on the first of two attempts, then the failpoint. */
  lemma MisreportHappens(policy: RetryPolicy) returns (acts: seq<Act>)
    ensures Schedulable(Initial(policy), acts)
    ensures var db := Final(Initial(policy), acts).db;
      && 0 in db.jobs && db.jobs[0].status.Dead? && db.jobs[0].lastError == Some(RetryBudgetExhausted)
      && db.jobs[0].attempts < db.jobs[0].maxAttempts
  {
    var start := Initial(policy);
    acts := WaitingReached(policy);
    LostThenMisreports(Final(start, acts));
    acts := Then(start, acts, LoseResponse(AttemptId(0, 1)));
    ScheduleKeepsSys(start, acts);
    FailpointMisreports(Final(start, acts), AttemptId(0, 1));
    acts := Then(start, acts, FinishThenCrash(AttemptId(0, 1)));
  }

  // --- Submitted jobs die of their budget only ---

  /** Submission checks the payload; failure injection is off. */
  predicate Ordinary(a: Act) {
    && (a.Database? && a.e.Insert? ==> ParseChargePayload(a.e.payload).Ok?)
    && !(a.Serve? && a.m.Inject?)
  }

  ghost predicate PayloadsValid(db: Db) {
    forall id :: id in db.jobs ==> ParseChargePayload(db.jobs[id].payload).Ok?
  }

  /** No request was refused or injected with a failure. */
  ghost predicate NotRefused(service: Charges.Service) {
    forall c :: c in service.calls && service.calls[c].stage.Answered? ==>
      !service.calls[c].stage.reply.BadRequest? && !service.calls[c].stage.reply.Injected?
  }

  ghost predicate OnlyRetryable(tasks: map<AttemptId, Task>) {
    forall k :: k in tasks && tasks[k].phase.Known? && tasks[k].phase.result.Failed? ==>
      IsRetryable(tasks[k].phase.result.kind)
  }

  ghost predicate DeathsByBudget(db: Db) {
    forall id :: id in db.jobs && db.jobs[id].status.Dead? ==> IsBudgetCode(db.jobs[id].lastError)
  }

  ghost predicate OrdinaryInv(s: Sys) {
    SysInv(s) && PayloadsValid(s.db) && NotRefused(s.service) && OnlyRetryable(s.tasks) && DeathsByBudget(s.db)
  }

  /** A row under the key of a row for some job carries the same payload. */
  lemma SameKeySamePayload(s: Sys, row: Charges.ChargeRow, existing: Charges.ChargeRow)
    requires SysInv(s) && ForSomeJob(s.db, row) && existing in s.service.rows && existing.key == row.key
    ensures existing.payload == row.payload
  {
    var id :| id in s.db.jobs && row.key == ChargeIdempotencyKey(id) && ParseChargePayload(s.db.jobs[id].payload) == Ok(row.payload);
    ChargesAreForJobs(s, existing);
    OwnPayload(s.db, existing, id);
  }

  /** The service never answers 409: two requests with one key are for one job and carry one payload. */
  lemma NeverConflicts(s: Sys, call: Charges.Call)
    requires SysInv(s) && ForSomeJob(s.db, call.row) && Charges.CallAgrees(s.service.rows, call)
    ensures !(call.stage.Answered? && call.stage.reply.Stored? && call.stage.reply.outcome.Conflict?)
  {
    if call.stage.Answered? && call.stage.reply.Stored? && call.stage.reply.outcome.Conflict? {
      SameKeySamePayload(s, call.row, call.stage.reply.outcome.row);
    }
  }

  /** Every answer a worker can get is a success or worth another attempt. */
  lemma ReplyIsRetryable(s: Sys, c: nat)
    requires SysInv(s) && NotRefused(s.service) && c in s.service.calls && s.service.calls[c].stage.Answered?
    ensures var r := ResultOf(Charges.StatusOf(s.service.calls[c].stage.reply)); r.Failed? ==> IsRetryable(r.kind)
  {
    assert Charges.CallAgrees(s.service.rows, s.service.calls[c]) && ForSomeJob(s.db, s.service.calls[c].row);
    NeverConflicts(s, s.service.calls[c]);
  }

  lemma ClaimKeepsDeaths(db: Db, tokens: map<Uuid, Token>, lease: nat, locked: set<Uuid>, db': Db)
    requires DeathsByBudget(db) && PayloadsValid(db) && JobsClaimed(db, tokens, lease, locked, db')
    ensures DeathsByBudget(db') && PayloadsValid(db')
  {
  }

  lemma FinalizeKeepsDeaths(db: Db, id: Uuid, token: Token, v: Verdict)
    requires DeathsByBudget(db) && PayloadsValid(db) && (v.Bury? ==> IsBudgetCode(Some(v.reason)))
    ensures DeathsByBudget(FinalizeTx(db, id, token, v)) && PayloadsValid(FinalizeTx(db, id, token, v))
  {
  }

  lemma EventKeepsDeaths(db: Db, e: Event)
    requires DeathsByBudget(db) && PayloadsValid(db) && Enabled(db, e)
    requires e.Finalize? && e.verdict.Bury? ==> IsBudgetCode(Some(e.verdict.reason))
    requires e.Insert? ==> ParseChargePayload(e.payload).Ok?
    ensures DeathsByBudget(Apply(db, e)) && PayloadsValid(Apply(db, e))
  {
    match e
    case Claim(tokens, worker, lease, locked) =>
      ClaimedJobs(db, tokens, worker, lease, locked);
      ClaimKeepsDeaths(db, tokens, lease, locked, ClaimTx(db, tokens, worker, lease, locked));
    case Finalize(id, token, v) => FinalizeKeepsDeaths(db, id, token, v);
    case Tick(_) =>
    case Insert(_, _, _) =>
    case Renew(_, _, _) =>
    case Replay(_, _) =>
  }

  lemma ActKeepsDeaths(s: Sys, a: Act)
    requires PayloadsValid(s.db) && OnlyRetryable(s.tasks) && DeathsByBudget(s.db) && Possible(s, a) && Ordinary(a)
    ensures PayloadsValid(Next(s, a).db) && DeathsByBudget(Next(s, a).db)
  {
    StepIsDbRun(s, a);
    if DbEvents(s, a) != [] {
      OneEvent(s.db, DbEvents(s, a)[0]);
      EventKeepsDeaths(s.db, DbEvents(s, a)[0]);
    }
  }

  lemma ActKeepsNotRefused(s: Sys, a: Act)
    requires NotRefused(s.service) && Possible(s, a) && Ordinary(a)
    ensures NotRefused(Next(s, a).service)
  {
    if a.Start? && ParseChargePayload(s.tasks[a.k].payload).Ok? {
      RequestAccepted(a.k, a.call, a.charge, s.tasks[a.k].payload);
    }
  }

  lemma PhaseKeepsRetryable(tasks: map<AttemptId, Task>, k: AttemptId, phase: Phase)
    requires OnlyRetryable(tasks) && k in tasks
    requires phase.Known? && phase.result.Failed? ==> IsRetryable(phase.result.kind)
    ensures OnlyRetryable(tasks[k := tasks[k].(phase := phase)])
  {
  }

  lemma StartKeepsRetryable(s: Sys, k: AttemptId, call: nat, charge: Uuid)
    requires k in s.tasks && TaskAgrees(s.db, k, s.tasks[k]) && PayloadsValid(s.db)
    requires OnlyRetryable(s.tasks) && Possible(s, Start(k, call, charge))
    ensures OnlyRetryable(Next(s, Start(k, call, charge)).tasks)
  {
    PhaseKeepsRetryable(s.tasks, k, Waiting(call));
  }

  /** Any other step but a response changes no task's result, or to one worth another attempt. */
  lemma QuietActKeepsRetryable(s: Sys, a: Act)
    requires OnlyRetryable(s.tasks) && Possible(s, a) && !a.Start? && !a.Respond?
    ensures OnlyRetryable(Next(s, a).tasks)
  {
  }

  lemma ActKeepsRetryable(s: Sys, a: Act)
    requires SysInv(s) && PayloadsValid(s.db) && NotRefused(s.service) && OnlyRetryable(s.tasks) && Possible(s, a)
    ensures OnlyRetryable(Next(s, a).tasks)
  {
    match a
    case Start(k, call, charge) => StartKeepsRetryable(s, k, call, charge);
    case Respond(k) =>
      var c := s.tasks[k].phase.call;
      ReplyIsRetryable(s, c);
      PhaseKeepsRetryable(s.tasks, k, Known(ResultOf(Charges.StatusOf(s.service.calls[c].stage.reply))));
    case _ => QuietActKeepsRetryable(s, a);
  }

  /** With every job submitted through the API and no injected failures, a DEAD job died of its budget and nothing else. */
  lemma {:induction false} OnlyBudgetDeaths(s: Sys, acts: seq<Act>)
    requires OrdinaryInv(s) && Schedulable(s, acts) && forall a :: a in acts ==> Ordinary(a)
    ensures DeathsByBudget(Final(s, acts).db)
    decreases |acts|
  {
    if acts != [] {
      ActKeepsSys(s, acts[0]);
      ActKeepsDeaths(s, acts[0]);
      ActKeepsNotRefused(s, acts[0]);
      ActKeepsRetryable(s, acts[0]);
      OnlyBudgetDeaths(Next(s, acts[0]), acts[1..]);
    }
  }

  /**
   From the empty system, without misreports, injected failures or unchecked submissions: every DEAD job
   carries a budget-exhaustion code and has spent its whole budget, after every schedule.
   */
  lemma DeadMeansSpent(policy: RetryPolicy, acts: seq<Act>, id: Uuid)
    requires Schedulable(Initial(policy), acts) && id in Final(Initial(policy), acts).db.jobs
    requires (forall a :: a in acts ==> Ordinary(a)) && NeverMisreports(Initial(policy), acts)
    requires Final(Initial(policy), acts).db.jobs[id].status.Dead?
    ensures var j := Final(Initial(policy), acts).db.jobs[id]; IsBudgetCode(j.lastError) && j.attempts == j.maxAttempts
  {
    OnlyBudgetDeaths(Initial(policy), acts);
    BudgetCodesAreTrue(Initial(policy), acts);
  }
}
