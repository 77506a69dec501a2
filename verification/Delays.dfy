/**
 Time in the attempt log: attempts of a job never overlap, a rescheduled job is never claimed before its
 scheduled instant, and all delays ever scheduled for a job sum to at most the sum of their caps.
 */
module Delays {
  import opened Core
  import opened Config
  import opened Validation
  import opened Queue
  import opened Audit
  import opened Backoff
  import opened Protocol
  import opened ExactlyOnce

  predicate WasRescheduled(a: Attempt) {
    a.outcome == Some(RetryScheduled)
  }

  /** When an attempt lets its job run again: its end, plus the delay if it was rescheduled. */
  function ReadyAt(a: Attempt): Time
    requires a.finishedAt.Some?
  {
    a.finishedAt.value + if WasRescheduled(a) && a.scheduledDelay.Some? then a.scheduledDelay.value else 0
  }

  /** Times of one row: it ends after it starts, both in the past; if it was rescheduled and is last, the job waits for it. */
  predicate TimesAgree(a: Attempt, number: int, j: Job, now: Time) {
    && a.startedAt <= now
    && (a.finishedAt.Some? ==> a.startedAt <= a.finishedAt.value <= now)
    && (WasRescheduled(a) ==> a.scheduledDelay.Some? && a.finishedAt.Some?)
    && (WasRescheduled(a) && number == j.attempts ==> j.status.Pending? && j.nextAttemptAt == ReadyAt(a))
  }

  ghost predicate RowsTimed(db: Db) {
    forall k :: k in db.attempts && k.job in db.jobs ==> TimesAgree(db.attempts[k], k.number, db.jobs[k.job], db.now)
  }

  predicate Follows(a: Attempt, b: Attempt) {
    a.finishedAt.Some? && ReadyAt(a) <= b.startedAt
  }

  ghost predicate InSequence(db: Db) {
    forall k, k' :: k in db.attempts && k' in db.attempts && k'.job == k.job && k'.number == k.number + 1 ==>
      Follows(db.attempts[k], db.attempts[k'])
  }

  ghost predicate Timed(db: Db) {
    RowsTimed(db) && InSequence(db)
  }

  lemma ClaimKeepsRowsTimed(db: Db, tokens: map<Uuid, Token>, worker: nat, lease: nat, locked: set<Uuid>, db': Db)
    requires Inv(db) && RowsTimed(db)
    requires JobsClaimed(db, tokens, lease, locked, db') && AttemptsClaimed(db, tokens, worker, db')
    ensures RowsTimed(db')
  {
    forall k | k in db'.attempts && k.job in db'.jobs
      ensures TimesAgree(db'.attempts[k], k.number, db'.jobs[k.job], db'.now)
    {
      if k in db.attempts {
        assert TimesAgree(db.attempts[k], k.number, db.jobs[k.job], db.now);
        assert Agrees(db.attempts[k], k.number, db.jobs[k.job]);
      }
    }
  }

  /** The row before a newly claimed attempt is closed, and its job was due. */
  lemma PreviousIsReady(db: Db, tokens: map<Uuid, Token>, k: AttemptId)
    requires Inv(db) && RowsTimed(db) && k in db.attempts && k.job in tokens && k.number == db.jobs[k.job].attempts
    requires Claimable(db.jobs[k.job], db.now)
    ensures AttemptAfterClaim(db, k).finishedAt.Some? && ReadyAt(AttemptAfterClaim(db, k)) <= db.now
  {
    assert TimesAgree(db.attempts[k], k.number, db.jobs[k.job], db.now);
    assert Agrees(db.attempts[k], k.number, db.jobs[k.job]);
  }

  lemma ClaimKeepsInSequence(db: Db, tokens: map<Uuid, Token>, worker: nat, lease: nat, db': Db)
    requires Inv(db) && Timed(db)
    requires forall id :: id in tokens ==> id in db.jobs && Claimable(db.jobs[id], db.now)
    requires AttemptsClaimed(db, tokens, worker, db')
    ensures InSequence(db')
  {
    forall k, k' | k in db'.attempts && k' in db'.attempts && k'.job == k.job && k'.number == k.number + 1
      ensures Follows(db'.attempts[k], db'.attempts[k'])
    {
      assert k in db.attempts;
      if k' in db.attempts {
        assert Follows(db.attempts[k], db.attempts[k']);
      } else {
        PreviousIsReady(db, tokens, k);
      }
    }
  }

  lemma FinalizeKeepsTimed(db: Db, id: Uuid, token: Token, v: Verdict)
    requires Inv(db) && Timed(db)
    ensures Timed(FinalizeTx(db, id, token, v))
  {
    if Held(db, id, token) {
      FinalizePointwise(db, id, token, v);
      LastRowRewritten(db, id, v, FinalizeTx(db, id, token, v));
    }
  }

  lemma LastRowRewritten(db: Db, id: Uuid, v: Verdict, db': Db)
    requires Inv(db) && Timed(db) && id in db.jobs && db.jobs[id].status.Running?
    requires var k := AttemptId(id, db.jobs[id].attempts);
      && k in db.attempts
      && db' == db.(jobs := db.jobs[id := JobAfter(db.jobs[id], v, db.now)],
                    attempts := db.attempts[k := AttemptAfter(db.attempts[k], v, db.now)])
    ensures Timed(db')
  {
    var last := AttemptId(id, db.jobs[id].attempts);
    assert TimesAgree(db.attempts[last], last.number, db.jobs[id], db.now);
    assert Agrees(db.attempts[last], last.number, db.jobs[id]);
    forall k, k' | k in db'.attempts && k' in db'.attempts && k'.job == k.job && k'.number == k.number + 1
      ensures Follows(db'.attempts[k], db'.attempts[k'])
    {
      assert Follows(db.attempts[k], db.attempts[k']) && k != last;
    }
    assert RowsTimed(db') by {
      forall k | k in db'.attempts && k.job in db'.jobs
        ensures TimesAgree(db'.attempts[k], k.number, db'.jobs[k.job], db'.now)
      {
        assert TimesAgree(db.attempts[k], k.number, db.jobs[k.job], db.now);
      }
    }
  }

  lemma ClaimKeepsTimed(db: Db, tokens: map<Uuid, Token>, worker: nat, lease: nat, locked: set<Uuid>)
    requires Inv(db) && Timed(db) && Enabled(db, Claim(tokens, worker, lease, locked))
    ensures Timed(ClaimTx(db, tokens, worker, lease, locked))
  {
    var db' := ClaimTx(db, tokens, worker, lease, locked);
    ClaimedJobs(db, tokens, worker, lease, locked);
    ClaimedAttempts(db, tokens, worker, lease, locked);
    ClaimKeepsRowsTimed(db, tokens, worker, lease, locked, db');
    ClaimKeepsInSequence(db, tokens, worker, lease, db');
  }

  /** Times do not depend on budgets or leases, and a replayed job's last attempt was not rescheduled. */
  lemma ReplayKeepsTimed(db: Db, id: Uuid, budget: int)
    requires Inv(db) && Timed(db)
    ensures Timed(ReplayTx(db, id, budget))
  {
    forall k | k in db.attempts && k.job in db.jobs
      ensures TimesAgree(db.attempts[k], k.number, ReplayTx(db, id, budget).jobs[k.job], db.now)
    {
      assert Agrees(db.attempts[k], k.number, db.jobs[k.job]);
      assert TimesAgree(db.attempts[k], k.number, db.jobs[k.job], db.now);
    }
  }

  lemma InsertKeepsTimed(db: Db, id: Uuid, payload: Json, budget: int)
    requires Inv(db) && Timed(db)
    ensures Timed(InsertTx(db, id, payload, budget))
  {
    forall k | k in db.attempts ensures k.job in db.jobs {
    }
  }

  lemma RenewKeepsTimed(db: Db, id: Uuid, token: Token, lease: nat)
    requires Timed(db)
    ensures Timed(RenewTx(db, id, token, lease))
  {
  }

  lemma TickKeepsTimed(db: Db, elapsed: nat)
    requires Timed(db)
    ensures Timed(Apply(db, Tick(elapsed)))
  {
  }

  lemma EventKeepsTimed(db: Db, e: Event)
    requires Inv(db) && Timed(db) && Enabled(db, e)
    ensures Timed(Apply(db, e))
  {
    match e
    case Claim(tokens, worker, lease, locked) => ClaimKeepsTimed(db, tokens, worker, lease, locked);
    case Finalize(id, token, v) => FinalizeKeepsTimed(db, id, token, v);
    case Insert(id, payload, budget) => InsertKeepsTimed(db, id, payload, budget);
    case Replay(id, budget) => ReplayKeepsTimed(db, id, budget);
    case Renew(id, token, lease) => RenewKeepsTimed(db, id, token, lease);
    case Tick(elapsed) => TickKeepsTimed(db, elapsed);
  }

  lemma {:induction false} RunKeepsTimed(db: Db, es: seq<Event>)
    requires Inv(db) && Timed(db) && Legal(db, es)
    ensures Timed(Exec(db, es))
    decreases |es|
  {
    if es != [] {
      EventKeepsTimed(db, es[0]);
      StepKeepsInv(db, es[0]);
      RunKeepsTimed(Apply(db, es[0]), es[1..]);
    }
  }

  /** In every run of anybody's transactions the next attempt starts no earlier than the last one's scheduled instant. */
  lemma NeverClaimedEarly(es: seq<Event>, id: Uuid, n: int)
    requires Legal(EMPTY, es) && id in Exec(EMPTY, es).jobs && 1 <= n < Exec(EMPTY, es).jobs[id].attempts
    ensures var log := Exec(EMPTY, es).attempts;
      && AttemptId(id, n) in log && AttemptId(id, n + 1) in log
      && Follows(log[AttemptId(id, n)], log[AttemptId(id, n + 1)])
  {
    RunKeepsInv(EMPTY, es);
    RunKeepsTimed(EMPTY, es);
    assert AttemptId(id, n) in Exec(EMPTY, es).attempts && AttemptId(id, n + 1) in Exec(EMPTY, es).attempts;
  }

  // --- When a job started and ended ---

  /** A job's start is that of its first attempt, and a SUCCEEDED job ended when its last attempt did. */
  ghost predicate Spanned(db: Db, id: Uuid)
    requires id in db.jobs
  {
    var j := db.jobs[id];
    && (j.attempts >= 1 ==> AttemptId(id, 1) in db.attempts && j.startedAt == Some(db.attempts[AttemptId(id, 1)].startedAt))
    && (j.attempts == 0 ==> j.startedAt.None?)
    && (j.status.Succeeded? ==>
          AttemptId(id, j.attempts) in db.attempts && db.attempts[AttemptId(id, j.attempts)].finishedAt == j.finishedAt)
  }

  lemma ClaimKeepsSpanned(db: Db, tokens: map<Uuid, Token>, worker: nat, lease: nat, locked: set<Uuid>, db': Db, id: Uuid)
    requires Inv(db) && id in db.jobs && Spanned(db, id)
    requires id in tokens ==> Claimable(db.jobs[id], db.now)
    requires JobsClaimed(db, tokens, lease, locked, db') && AttemptsClaimed(db, tokens, worker, db')
    ensures Spanned(db', id)
  {
    assert SatisfiesChecks(db.jobs[id]);
    if id in tokens {
      assert IsNewAttempt(db, AttemptId(id, db.jobs[id].attempts + 1), tokens);
    }
  }

  lemma EventKeepsSpanned(db: Db, e: Event, id: Uuid)
    requires Inv(db) && Enabled(db, e) && id in Apply(db, e).jobs && (id in db.jobs ==> Spanned(db, id))
    ensures Spanned(Apply(db, e), id)
  {
    match e
    case Claim(tokens, worker, lease, locked) =>
      ClaimedJobs(db, tokens, worker, lease, locked);
      ClaimedAttempts(db, tokens, worker, lease, locked);
      ClaimKeepsSpanned(db, tokens, worker, lease, locked, ClaimTx(db, tokens, worker, lease, locked), id);
    case Finalize(held, token, v) =>
      if Held(db, held, token) {
        FinalizePointwise(db, held, token, v);
      }
    case Tick(_) =>
    case Insert(_, _, _) =>
    case Renew(_, _, _) =>
    case Replay(_, _) =>
  }

  /** In every run of anybody's transactions, replays included. */
  lemma {:induction false} SpansAttempts(db: Db, es: seq<Event>, id: Uuid)
    requires Inv(db) && Legal(db, es) && id in Exec(db, es).jobs && (id in db.jobs ==> Spanned(db, id))
    ensures Spanned(Exec(db, es), id)
    decreases |es|
  {
    if es != [] {
      StepKeepsInv(db, es[0]);
      if id in Apply(db, es[0]).jobs {
        EventKeepsSpanned(db, es[0], id);
      }
      SpansAttempts(Apply(db, es[0]), es[1..], id);
    }
  }

  // --- Total backoff ---

  /** Every delay in the log is within the cap of its own attempt number. */
  ghost predicate WithinCaps(db: Db, p: RetryPolicy) {
    forall k :: k in db.attempts && WasRescheduled(db.attempts[k]) ==>
      k.number >= 1 && db.attempts[k].scheduledDelay.Some? && db.attempts[k].scheduledDelay.value <= CapMillis(p, k.number)
  }

  lemma ClaimKeepsWithinCaps(db: Db, tokens: map<Uuid, Token>, worker: nat, db': Db, p: RetryPolicy)
    requires WithinCaps(db, p) && AttemptsClaimed(db, tokens, worker, db')
    ensures WithinCaps(db', p)
  {
  }

  lemma EventKeepsWithinCaps(db: Db, e: Event, p: RetryPolicy)
    requires Inv(db) && Enabled(db, e) && WithinCaps(db, p)
    requires e.Finalize? && e.verdict.Retry? && Held(db, e.id, e.token) ==>
      e.verdict.delay <= CapMillis(p, Max(db.jobs[e.id].attempts, 0))
    ensures WithinCaps(Apply(db, e), p)
  {
    match e
    case Claim(tokens, worker, lease, locked) =>
      ClaimedAttempts(db, tokens, worker, lease, locked);
      ClaimKeepsWithinCaps(db, tokens, worker, ClaimTx(db, tokens, worker, lease, locked), p);
    case Finalize(id, token, v) =>
      if Held(db, id, token) {
        FinalizePointwise(db, id, token, v);
      }
    case Tick(_) =>
    case Insert(_, _, _) =>
    case Renew(_, _, _) =>
    case Replay(_, _) =>
  }

  lemma ActKeepsWithinCaps(s: Sys, a: Act)
    requires SysInv(s) && WithinCaps(s.db, s.policy) && Possible(s, a)
    ensures WithinCaps(Next(s, a).db, s.policy) && Next(s, a).policy == s.policy
  {
    StepIsDbRun(s, a);
    if DbEvents(s, a) != [] {
      if a.Finish? {
        assert TaskAgrees(s.db, a.k, s.tasks[a.k]);
      }
      OneEvent(s.db, DbEvents(s, a)[0]);
      EventKeepsWithinCaps(s.db, DbEvents(s, a)[0], s.policy);
    }
  }

  lemma {:induction false} ScheduleKeepsWithinCaps(s: Sys, acts: seq<Act>)
    requires SysInv(s) && WithinCaps(s.db, s.policy) && Schedulable(s, acts)
    ensures SysInv(Final(s, acts)) && WithinCaps(Final(s, acts).db, s.policy)
    decreases |acts|
  {
    if acts != [] {
      ActKeepsSys(s, acts[0]);
      ActKeepsWithinCaps(s, acts[0]);
      ScheduleKeepsWithinCaps(Next(s, acts[0]), acts[1..]);
    }
  }

  predicate Rescheduled(db: Db, id: Uuid, n: nat) {
    AttemptId(id, n) in db.attempts && WasRescheduled(db.attempts[AttemptId(id, n)])
  }

  /** The delays scheduled for a job by its attempts 1..n. */
  function TotalDelay(db: Db, id: Uuid, n: nat): nat {
    if n == 0 then 0
    else
      var a := AttemptId(id, n);
      (if Rescheduled(db, id, n) && db.attempts[a].scheduledDelay.Some? then db.attempts[a].scheduledDelay.value else 0)
      + TotalDelay(db, id, n - 1)
  }

  function TotalCap(db: Db, p: RetryPolicy, id: Uuid, n: nat): nat {
    if n == 0 then 0 else (if Rescheduled(db, id, n) then CapMillis(p, n) else 0) + TotalCap(db, p, id, n - 1)
  }

  function Reschedules(db: Db, id: Uuid, n: nat): nat {
    if n == 0 then 0 else (if Rescheduled(db, id, n) then 1 else 0) + Reschedules(db, id, n - 1)
  }

  lemma CapAtMostMax(c: WorkerConfig, n: nat)
    requires Validate(c).Ok? && n >= 1
    ensures CapMillis(RetryPolicyOf(c), n) <= c.retryMaxDelay
  {
    CapMillisBound(c, n);
  }

  lemma OneMoreTerm(count: nat, bound: nat)
    ensures (1 + count) * bound == count * bound + bound
  {
  }

  lemma {:induction false} TotalsBounded(db: Db, c: WorkerConfig, id: Uuid, n: nat)
    requires Validate(c).Ok? && WithinCaps(db, RetryPolicyOf(c))
    ensures TotalDelay(db, id, n) <= TotalCap(db, RetryPolicyOf(c), id, n) <= Reschedules(db, id, n) * c.retryMaxDelay
  {
    if n > 0 {
      TotalsBounded(db, c, id, n - 1);
      CapAtMostMax(c, n);
      OneMoreTerm(Reschedules(db, id, n - 1), c.retryMaxDelay);
    }
  }

  /**
   Over every schedule of a system with a validated configuration, the delays ever scheduled for a job sum
   to at most the caps of its rescheduled attempts, hence to their number times the configured maximum.
   */
  lemma TotalBackoffBounded(c: WorkerConfig, acts: seq<Act>, id: Uuid, n: nat)
    requires Validate(c).Ok? && Schedulable(Initial(RetryPolicyOf(c)), acts)
    ensures var db := Final(Initial(RetryPolicyOf(c)), acts).db;
      TotalDelay(db, id, n) <= TotalCap(db, RetryPolicyOf(c), id, n) <= Reschedules(db, id, n) * c.retryMaxDelay
  {
    ScheduleKeepsWithinCaps(Initial(RetryPolicyOf(c)), acts);
    TotalsBounded(Final(Initial(RetryPolicyOf(c)), acts).db, c, id, n);
  }
}
