/**
 What a job's last_error_code says, in every reachable state of the whole system: nothing before the first failure,
 after a success or after an operator retry; else the code of the job's last attempt, or that its last lease ran out.
 */
module Explanations {
  import opened Core
  import opened Queue
  import opened Audit
  import opened Backoff
  import opened Protocol
  import opened ExactlyOnce
  import opened Reasons

  /** A job that is not RUNNING, read against its last attempt row. */
  predicate Explained(j: Job, a: Attempt) {
    match j.status
    case Running => true
    case Succeeded => j.lastError.None?
    case Pending => j.lastError == if a.outcome == Some(RetryScheduled) then a.error else None
    case Dead =>
      if a.outcome == Some(LeaseLost) then j.lastError == Some(LeaseExpiredBudgetExhausted)
      else a.outcome == Some(AttemptDead) && j.lastError == a.error && j.lastError != Some(LeaseExpiredBudgetExhausted)
  }

  ghost predicate AllExplained(db: Db) {
    forall id :: id in db.jobs ==>
      && (db.jobs[id].attempts == 0 ==> db.jobs[id].lastError.None?)
      && var k := AttemptId(id, db.jobs[id].attempts);
      k in db.attempts ==> Explained(db.jobs[id], db.attempts[k])
  }

  /** Only a claim may say that a lease expired. */
  predicate HonestBurial(e: Event) {
    e.Finalize? && e.verdict.Bury? ==> e.verdict.reason != LeaseExpiredBudgetExhausted
  }

  lemma ClaimKeepsExplained(db: Db, tokens: map<Uuid, Token>, worker: nat, lease: nat, locked: set<Uuid>, db': Db)
    requires Inv(db) && AllExplained(db)
    requires JobsClaimed(db, tokens, lease, locked, db') && AttemptsClaimed(db, tokens, worker, db')
    ensures AllExplained(db')
  {
    forall id | id in db'.jobs
      ensures db'.jobs[id].attempts == 0 ==> db'.jobs[id].lastError.None?
      ensures var k := AttemptId(id, db'.jobs[id].attempts); k in db'.attempts ==> Explained(db'.jobs[id], db'.attempts[k])
    {
      assert SatisfiesChecks(db.jobs[id]);
      var k := AttemptId(id, db.jobs[id].attempts);
      if k in db.attempts {
        assert Agrees(db.attempts[k], k.number, db.jobs[id]);
      }
    }
  }

  lemma FinalizeKeepsExplained(db: Db, id: Uuid, token: Token, v: Verdict)
    requires Inv(db) && AllExplained(db) && (v.Bury? ==> v.reason != LeaseExpiredBudgetExhausted)
    ensures AllExplained(FinalizeTx(db, id, token, v))
  {
    if Held(db, id, token) {
      assert SatisfiesChecks(db.jobs[id]);
      FinalizePointwise(db, id, token, v);
    }
  }

  lemma ReplayKeepsExplained(db: Db, id: Uuid, budget: int)
    requires Inv(db) && AllExplained(db)
    ensures AllExplained(ReplayTx(db, id, budget))
  {
    if id in db.jobs {
      var k := AttemptId(id, db.jobs[id].attempts);
      if k in db.attempts {
        assert Agrees(db.attempts[k], k.number, db.jobs[id]);
      }
    }
  }

  /** The clock, a submission and a renewal touch no explanation. */
  lemma OthersKeepExplained(db: Db, e: Event)
    requires Inv(db) && AllExplained(db) && (e.Tick? || e.Insert? || e.Renew?)
    ensures AllExplained(Apply(db, e))
  {
  }

  lemma EventKeepsExplained(db: Db, e: Event)
    requires Inv(db) && AllExplained(db) && Enabled(db, e) && HonestBurial(e)
    ensures AllExplained(Apply(db, e))
  {
    match e
    case Claim(tokens, worker, lease, locked) =>
      ClaimedJobs(db, tokens, worker, lease, locked);
      ClaimedAttempts(db, tokens, worker, lease, locked);
      ClaimKeepsExplained(db, tokens, worker, lease, locked, ClaimTx(db, tokens, worker, lease, locked));
    case Finalize(id, token, v) => FinalizeKeepsExplained(db, id, token, v);
    case Replay(id, budget) => ReplayKeepsExplained(db, id, budget);
    case _ => OthersKeepExplained(db, e);
  }

  lemma ActKeepsExplained(s: Sys, a: Act)
    requires SysInv(s) && AllExplained(s.db) && HonestTasks(s.tasks) && Possible(s, a)
    ensures AllExplained(Next(s, a).db)
  {
    StepIsDbRun(s, a);
    if DbEvents(s, a) != [] {
      OneEvent(s.db, DbEvents(s, a)[0]);
      EventKeepsExplained(s.db, DbEvents(s, a)[0]);
    }
  }

  lemma {:induction false} ScheduleKeepsExplained(s: Sys, acts: seq<Act>)
    requires SysInv(s) && AllExplained(s.db) && HonestTasks(s.tasks) && Schedulable(s, acts)
    ensures SysInv(Final(s, acts)) && AllExplained(Final(s, acts).db)
    decreases |acts|
  {
    if acts != [] {
      ActKeepsSys(s, acts[0]);
      ActKeepsHonest(s, acts[0]);
      ActKeepsExplained(s, acts[0]);
      ScheduleKeepsExplained(Next(s, acts[0]), acts[1..]);
    }
  }

  /** A DEAD job says that its lease expired exactly if its last attempt is LEASE_LOST, and else what that attempt says. */
  ghost predicate DeadExplained(db: Db, id: Uuid)
    requires id in db.jobs
  {
    var j := db.jobs[id];
    var k := AttemptId(id, j.attempts);
    && k in db.attempts
    && (j.lastError == Some(LeaseExpiredBudgetExhausted) <==> db.attempts[k].outcome == Some(LeaseLost))
    && (j.lastError != Some(LeaseExpiredBudgetExhausted) ==>
          db.attempts[k].outcome == Some(AttemptDead) && j.lastError == db.attempts[k].error)
  }

  /** The code of a job that is neither DEAD nor RUNNING: that of the attempt that rescheduled it, or none. */
  ghost predicate RestExplained(db: Db, id: Uuid)
    requires id in db.jobs
  {
    var j := db.jobs[id];
    var k := AttemptId(id, j.attempts);
    && (j.status.Succeeded? || j.attempts == 0 ==> j.lastError.None?)
    && (j.status.Pending? && j.attempts > 0 ==>
          && k in db.attempts
          && j.lastError == if db.attempts[k].outcome == Some(RetryScheduled) then db.attempts[k].error else None)
  }

  lemma ExplainedInState(db: Db, id: Uuid)
    requires Inv(db) && AllExplained(db) && id in db.jobs
    ensures db.jobs[id].status.Dead? ==> DeadExplained(db, id)
    ensures RestExplained(db, id)
  {
    assert SatisfiesChecks(db.jobs[id]);
    if db.jobs[id].attempts > 0 {
      assert AttemptId(id, db.jobs[id].attempts) in db.attempts;
    }
  }

  /** After every schedule from the start, failpoint and injected answers included. */
  lemma CodesExplained(policy: RetryPolicy, acts: seq<Act>, id: Uuid)
    requires Schedulable(Initial(policy), acts) && id in Final(Initial(policy), acts).db.jobs
    ensures Final(Initial(policy), acts).db.jobs[id].status.Dead? ==> DeadExplained(Final(Initial(policy), acts).db, id)
    ensures RestExplained(Final(Initial(policy), acts).db, id)
  {
    ScheduleKeepsExplained(Initial(policy), acts);
    ExplainedInState(Final(Initial(policy), acts).db, id);
  }
}
