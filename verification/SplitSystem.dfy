/**
 Fencing and the charge guarantee when claims run statement by statement, untimely and unclean steps included:
 neither needs the audit invariant, only that every worker can be traced to its attempt row.
 */
module SplitSystem {
  import opened Core
  import opened Queue
  import opened Audit
  import opened Backoff
  import opened Protocol
  import opened ExactlyOnce
  import opened Fencing
  import SplitClaim

  // --- Fencing over single statements ---

  lemma LeaseTokenStep(db: Db, at: Time, tokens: map<Uuid, Token>, worker: nat, lease: nat, id: Uuid, token: Token)
    requires CanLease(db, at, tokens) && token in db.minted
    ensures var db' := LeaseAndRecord(db, at, tokens, worker, lease);
      token in db'.minted && (Held(db', id, token) ==> Held(db, id, token) && SameClaim(db.jobs[id], db'.jobs[id]))
  {
    if id in tokens {
      assert tokens[id] in tokens.Values;
    }
  }

  /** A minted token that does not guard a job cannot start to, and one that still does saw no change. */
  lemma SplitTokenStep(s: SplitClaim.State, step: SplitClaim.Step, id: Uuid, token: Token)
    requires SplitClaim.Possible(s, step) && token in s.db.minted
    ensures var db' := SplitClaim.Next(s, step).db;
      token in db'.minted && (Held(db', id, token) ==> Held(s.db, id, token) && SameClaim(s.db.jobs[id], db'.jobs[id]))
  {
    match step
    case Whole(e) => TokenStep(s.db, e, id, token);
    case CloseStatement(_) =>
    case KillStatement(_, _) =>
    case LeaseStatement(c, tokens, worker, lease) => LeaseTokenStep(s.db, s.running[c].at, tokens, worker, lease, id, token);
  }

  lemma {:induction false} SplitTokenRun(s: SplitClaim.State, steps: seq<SplitClaim.Step>, id: Uuid, token: Token)
    requires Logged(s.db) && SplitClaim.SplitRun(s, steps) && token in s.db.minted
    ensures var end := SplitClaim.SplitExec(s, steps).db;
      Logged(end) && (Held(end, id, token) ==> Held(s.db, id, token) && SameClaim(s.db.jobs[id], end.jobs[id]))
    decreases |steps|
  {
    if steps != [] {
      SplitTokenStep(s, steps[0], id, token);
      SplitClaim.StatementKeepsLogged(s, steps[0]);
      SplitTokenRun(SplitClaim.Next(s, steps[0]), steps[1..], id, token);
    }
  }

  lemma LeaseGuards(s: SplitClaim.State, step: SplitClaim.Step, id: Uuid)
    requires SplitClaim.Possible(s, step) && step.LeaseStatement? && id in step.tokens
    ensures id in s.db.jobs && JustClaimed(s.db.jobs[id], SplitClaim.Next(s, step).db, id, step.tokens[id])
  {
    assert step.tokens[id] in step.tokens.Values;
  }

  /**
   From the lease statement that minted a token, over any interleaving of statements: whenever a finalizer with it
   takes effect, the job still shows the claimed attempt number, budget and payload, and the one attempt row
   rewritten is that attempt's.
   */
  lemma SplitFencedFinalize(s: SplitClaim.State, step: SplitClaim.Step, steps: seq<SplitClaim.Step>, id: Uuid, v: Verdict)
    requires Logged(s.db) && SplitClaim.Possible(s, step) && step.LeaseStatement? && id in step.tokens
    requires SplitClaim.SplitRun(SplitClaim.Next(s, step), steps)
    requires Held(SplitClaim.SplitExec(SplitClaim.Next(s, step), steps).db, id, step.tokens[id])
    ensures id in s.db.jobs
    ensures FinalizesClaim(s.db.jobs[id], SplitClaim.SplitExec(SplitClaim.Next(s, step), steps).db, id, step.tokens[id], v)
  {
    var claimed := SplitClaim.Next(s, step);
    var end := SplitClaim.SplitExec(claimed, steps).db;
    LeaseGuards(s, step, id);
    SplitClaim.StatementKeepsLogged(s, step);
    SplitTokenRun(claimed, steps, id, step.tokens[id]);
    HeldRow(end, id, step.tokens[id]);
    FinalizePointwise(end, id, step.tokens[id], v);
  }

  // --- The whole system, with claims in statements ---

  /** The system, and the claims that have run a statement. */
  datatype SplitSys = SplitSys(sys: Sys, running: map<nat, SplitClaim.Stage>)

  datatype SplitAct = Act(a: Protocol.Act) | Statement(step: SplitClaim.Step)

  function Tables(s: SplitSys): SplitClaim.State {
    SplitClaim.State(s.sys.db, s.running)
  }

  ghost predicate Possible(s: SplitSys, a: SplitAct) {
    match a
    case Act(act) => Protocol.Possible(s.sys, act)
    case Statement(step) => !step.Whole? && SplitClaim.Possible(Tables(s), step)
  }

  /** A lease statement starts the workers of the rows it leased. */
  ghost function Next(s: SplitSys, a: SplitAct): SplitSys
    requires Possible(s, a)
  {
    match a
    case Act(act) => s.(sys := Protocol.Next(s.sys, act))
    case Statement(step) =>
      var after := SplitClaim.Next(Tables(s), step);
      SplitSys(s.sys.(db := after.db,
                      tasks := if step.LeaseStatement? then s.sys.tasks + NewTasks(s.sys.db, after.db, step.tokens) else s.sys.tasks),
               after.running)
  }

  /** What a statement leaves alone: payloads, the tokens of attempt rows, and the fence around every minted token. */
  ghost predicate Respects(db: Db, db': Db) {
    && Keeps(db, db')
    && forall id: Uuid, token :: token in db.minted && Held(db', id, token) ==>
         Held(db, id, token) && SameClaim(db.jobs[id], db'.jobs[id])
  }

  lemma LeaseKeeps(db: Db, at: Time, tokens: map<Uuid, Token>, worker: nat, lease: nat)
    requires Logged(db) && CanLease(db, at, tokens)
    ensures Keeps(db, LeaseAndRecord(db, at, tokens, worker, lease))
  {
    LeaseAddsRows(db, at, tokens, worker, lease);
  }

  lemma StatementKeeps(s: SplitClaim.State, step: SplitClaim.Step)
    requires Logged(s.db) && SplitClaim.Possible(s, step) && !step.Whole?
    ensures Keeps(s.db, SplitClaim.Next(s, step).db)
  {
    match step
    case CloseStatement(_) =>
    case KillStatement(_, _) =>
    case LeaseStatement(c, tokens, worker, lease) => LeaseKeeps(s.db, s.running[c].at, tokens, worker, lease);
  }

  lemma StatementRespects(s: SplitClaim.State, step: SplitClaim.Step)
    requires Logged(s.db) && SplitClaim.Possible(s, step) && !step.Whole?
    ensures Respects(s.db, SplitClaim.Next(s, step).db)
  {
    StatementKeeps(s, step);
    forall id: Uuid, token | token in s.db.minted {
      SplitTokenStep(s, step, id, token);
    }
  }

  lemma RespectKeepsTraced(s: Sys, db': Db)
    requires Traced(s) && Logged(db') && Respects(s.db, db')
    ensures Traced(s.(db := db'))
  {
    CallsStep(s.db, db', s.service);
    forall k | k in s.tasks ensures TaskAgrees(db', k, s.tasks[k]) {
      assert TaskAgrees(s.db, k, s.tasks[k]) && s.tasks[k].token in s.db.minted;
    }
  }

  lemma NewTasksOfLease(db: Db, at: Time, tokens: map<Uuid, Token>, worker: nat, lease: nat, k: AttemptId)
    requires Logged(db) && CanLease(db, at, tokens)
    requires k in NewTasks(db, LeaseAndRecord(db, at, tokens, worker, lease), tokens)
    ensures var db' := LeaseAndRecord(db, at, tokens, worker, lease);
      TaskAgrees(db', k, NewTasks(db, db', tokens)[k])
  {
    LeaseAddsRows(db, at, tokens, worker, lease);
    assert IsNewAttempt(db, k, tokens);
  }

  lemma StatementKeepsTraced(s: SplitSys, step: SplitClaim.Step)
    requires Traced(s.sys) && Possible(s, Statement(step))
    ensures Traced(Next(s, Statement(step)).sys)
  {
    var db' := SplitClaim.Next(Tables(s), step).db;
    SplitClaim.StatementKeepsLogged(Tables(s), step);
    StatementRespects(Tables(s), step);
    RespectKeepsTraced(s.sys, db');
    if step.LeaseStatement? {
      var added := NewTasks(s.sys.db, db', step.tokens);
      forall k | k in added {
        NewTasksOfLease(s.sys.db, s.running[step.c].at, step.tokens, step.worker, step.lease, k);
      }
      AddTasksKeepsTraced(s.sys.(db := db'), added);
    }
  }

  ghost predicate Schedulable(s: SplitSys, acts: seq<SplitAct>)
    decreases |acts|
  {
    acts == [] || (Possible(s, acts[0]) && Schedulable(Next(s, acts[0]), acts[1..]))
  }

  ghost function Final(s: SplitSys, acts: seq<SplitAct>): SplitSys
    requires Schedulable(s, acts)
    decreases |acts|
  {
    if acts == [] then s else Final(Next(s, acts[0]), acts[1..])
  }

  lemma {:induction false} ScheduleKeepsTraced(s: SplitSys, acts: seq<SplitAct>)
    requires Traced(s.sys) && Schedulable(s, acts)
    ensures Traced(Final(s, acts).sys)
    decreases |acts|
  {
    if acts != [] {
      match acts[0] {
        case Act(a) => ActKeepsTraced(s.sys, a);
        case Statement(step) => StatementKeepsTraced(s, step);
      }
      ScheduleKeepsTraced(Next(s, acts[0]), acts[1..]);
    }
  }

  /** However the statements of claims interleave and stall, each job is charged at most once, for what it asked. */
  lemma SplitAtMostOneCharge(policy: RetryPolicy, acts: seq<SplitAct>, id: Uuid)
    requires Schedulable(SplitSys(Initial(policy), map[]), acts)
    requires id in Final(SplitSys(Initial(policy), map[]), acts).sys.db.jobs
    ensures ChargedAtMostOnce(Final(SplitSys(Initial(policy), map[]), acts).sys, id)
  {
    ScheduleKeepsTraced(SplitSys(Initial(policy), map[]), acts);
    TracedChargesOnce(Final(SplitSys(Initial(policy), map[]), acts).sys, id);
  }
}
