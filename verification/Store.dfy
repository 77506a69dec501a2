/**
 The repository functions over mutable tables, in statement order. Each method is one
 transaction; `Db()` is the database value, and every method moves it exactly as the
 transaction of module Queue does.
 */
module Store {
  import opened Core
  import opened Validation
  import opened Queue
  import opened Audit
  import opened Selection
  import opened Effects

  datatype RepoError = ConstraintViolation

  datatype ClaimedJob = ClaimedJob(id: Uuid, job: Job, attemptNumber: int, wasReclaimed: bool)

  function RunningIds(jobs: map<Uuid, Job>): set<Uuid> {
    set id | id in jobs && jobs[id].status.Running?
  }

  /** One result per claimed job, holding its row after the claim and whether its lease was reclaimed. */
  predicate Reports(results: seq<ClaimedJob>, jobs: map<Uuid, Job>, due: set<Uuid>, reclaimed: set<Uuid>) {
    && |results| == |due|
    && (forall i :: 0 <= i < |results| ==>
          && results[i].id in due && results[i].id in jobs && results[i].job == jobs[results[i].id]
          && results[i].attemptNumber == jobs[results[i].id].attempts
          && (results[i].wasReclaimed <==> results[i].id in reclaimed))
    && (forall i, j :: 0 <= i < j < |results| ==> results[i].id != results[j].id)
  }

  /** The tables between statements 2 and 3 of a claim. */
  function BeforeLeasing(db: Queue.Db, locked: set<Uuid>): Queue.Db {
    KillExhausted(CloseExpired(db, db.now), db.now, locked)
  }

  lemma SelectionUnchanged(db: Queue.Db, limit: nat, due: set<Uuid>, locked: set<Uuid>)
    requires Selected(BeforeLeasing(db, locked), limit, due, locked)
    ensures Selected(db, limit, due, locked)
    ensures RunningIds(BeforeLeasing(db, locked).jobs) * due == RunningIds(db.jobs) * due
    ensures due <= db.jobs.Keys && forall id :: id in due ==> Claimable(db.jobs[id], db.now)
  {
    forall id | id in db.jobs
      ensures id in ClaimableIds(BeforeLeasing(db, locked)) <==> id in ClaimableIds(db)
      ensures id in ClaimableIds(db) ==> BeforeLeasing(db, locked).jobs[id] == db.jobs[id]
    {
      ClaimableUnchanged(db, db.now, locked, id);
    }
    assert ClaimableIds(BeforeLeasing(db, locked)) == ClaimableIds(db);
    forall id | id in due ensures id in RunningIds(BeforeLeasing(db, locked).jobs) <==> id in RunningIds(db.jobs) {
      assert id in ClaimableIds(db);
    }
  }

  lemma StatementsMakeClaim(db: Queue.Db, tokens: map<Uuid, Token>, worker: nat, lease: nat, locked: set<Uuid>)
    requires tokens.Keys <= db.jobs.Keys
    ensures RecordAttempts(LeaseDue(BeforeLeasing(db, locked), db.now, tokens, lease), db.now, tokens, worker) ==
      Apply(db, Claim(tokens, worker, lease, locked))
  {
  }

  lemma OneMoreRow(attempts: map<AttemptId, Attempt>, jobs: map<Uuid, Job>, done: set<Uuid>, id: Uuid,
                   tokens: map<Uuid, Token>, worker: nat, t: Time)
    requires done + {id} <= jobs.Keys && done + {id} <= tokens.Keys
    ensures attempts + NewAttemptRows(jobs, done + {id}, tokens, worker, t) ==
      (attempts + NewAttemptRows(jobs, done, tokens, worker, t))[AttemptId(id, jobs[id].attempts) := NewAttempt(worker, tokens[id], t)]
  {
    assert NewAttemptIds(jobs, done + {id}) == NewAttemptIds(jobs, done) + {AttemptId(id, jobs[id].attempts)};
  }

  lemma OneMoreReport(results: seq<ClaimedJob>, jobs: map<Uuid, Job>, done: set<Uuid>, reclaimed: set<Uuid>, id: Uuid)
    requires Reports(results, jobs, done, reclaimed) && id !in done && id in jobs
    ensures Reports(results + [ClaimedJob(id, jobs[id], jobs[id].attempts, id in reclaimed)], jobs, done + {id}, reclaimed)
  {
  }

  class Store {
    var jobs: map<Uuid, Job>
    var attempts: map<AttemptId, Attempt>
    var now: Time
    var minted: set<Token>

    function Db(): Queue.Db
      reads this
    {
      Queue.Db(jobs, attempts, now, minted)
    }

    constructor ()
      ensures Db() == EMPTY && Inv(Db())
    {
      jobs, attempts, now, minted := map[], map[], 0, {};
    }

    method AdvanceClock(elapsed: nat)
      modifies this`now
      ensures Db() == Apply(old(Db()), Tick(elapsed))
    {
      now := now + elapsed;
    }

    /** Transactions of other processes, one after the other. */
    method OthersRun(es: seq<Event>)
      requires Legal(Db(), es)
      modifies this
      ensures Db() == Exec(old(Db()), es)
    {
      var i := 0;
      assert es[0..] == es;
      while i < |es|
        invariant i <= |es| && Legal(Db(), es[i..]) && Exec(Db(), es[i..]) == Exec(old(Db()), es)
      {
        assert es[i..][0] == es[i] && es[i..][1..] == es[i + 1..];
        var next := Apply(Db(), es[i]);
        jobs, attempts, now, minted := next.jobs, next.attempts, next.now, next.minted;
        assert Db() == next;
        i := i + 1;
      }
      assert es[i..] == [];
    }

    method InsertJob(id: Uuid, kind: string, payload: Json, budget: int) returns (r: Result<Job, RepoError>)
      modifies this`jobs
      ensures r.Ok? ==> Db() == Apply(old(Db()), Insert(id, payload, budget))
      ensures r.Err? ==> Db() == old(Db())
      ensures r.Ok? <==> id !in old(jobs) && 1 <= budget <= I32_MAX && Storable(kind) && StorableJson(payload)
      ensures r.Ok? ==>
        id in jobs && jobs == old(jobs)[id := jobs[id]] && r.value == jobs[id] && Submitted(r.value, payload, budget, now)
    {
      var row := NewJob(payload, budget, now);
      if id in jobs || !SatisfiesChecks(row) || !Storable(kind) || !StorableJson(payload) {
        return Err(ConstraintViolation);
      }
      jobs := jobs[id := row];
      r := Ok(row);
    }

    /** `gen_random_uuid()` once per row of the UPDATE. */
    method MintTokens(ids: set<Uuid>) returns (tokens: map<Uuid, Token>)
      modifies this`minted
      ensures tokens.Keys == ids
      ensures FreshTokens(old(Db()), tokens)
      ensures minted == old(minted) + tokens.Values
    {
      tokens := map[];
      var left := ids;
      while left != {}
        invariant left <= ids && tokens.Keys == ids - left
        invariant FreshTokens(old(Db()), tokens)
        invariant minted == old(minted) + tokens.Values
        decreases left
      {
        var id :| id in left;
        BoundExists(minted);
        var token: Token :| token !in minted;
        ghost var before := tokens;
        tokens := tokens[id := token];
        assert tokens.Values == before.Values + {token} by {
          assert forall x :: x in before ==> tokens[x] == before[x];
          assert tokens[id] == token;
        }
        minted := minted + {token};
        left := left - {id};
      }
    }

    /** The insert loop over the rows that statement 3 returned, in whatever order it returned them. */
    method InsertAttempts(worker: nat, due: set<Uuid>, tokens: map<Uuid, Token>, reclaimed: set<Uuid>)
      returns (results: seq<ClaimedJob>)
      requires due <= jobs.Keys && tokens.Keys == due
      modifies this`attempts
      ensures attempts == old(attempts) + NewAttemptRows(jobs, due, tokens, worker, now)
      ensures Reports(results, jobs, due, reclaimed)
    {
      results := [];
      var done := {};
      while due - done != {}
        invariant done <= due
        invariant attempts == old(attempts) + NewAttemptRows(jobs, done, tokens, worker, now)
        invariant Reports(results, jobs, done, reclaimed)
        decreases due - done
      {
        var id :| id in due - done;
        var job := jobs[id];
        attempts := attempts[AttemptId(id, job.attempts) := NewAttempt(worker, tokens[id], now)];
        OneMoreRow(old(attempts), jobs, done, id, tokens, worker, now);
        OneMoreReport(results, jobs, done, reclaimed, id);
        results := results + [ClaimedJob(id, job, job.attempts, id in reclaimed)];
        done := done + {id};
      }
      assert done == due;
    }

    /** The first of some rows in the order of the claim: a scan that keeps the best row so far. */
    method First(pool: set<Uuid>) returns (first: Uuid)
      requires pool != {} && pool <= jobs.Keys
      ensures first in pool && forall y :: y in pool ==> Precedes(jobs[first], jobs[y])
    {
      first :| first in pool;
      var left := pool - {first};
      while left != {}
        invariant left <= pool && first in pool
        invariant forall y :: y in pool - left ==> Precedes(jobs[first], jobs[y])
        decreases left
      {
        var y :| y in left;
        if !Precedes(jobs[first], jobs[y]) {
          first := y;
        }
        left := left - {y};
      }
    }

    /** The WHERE clause of statement 3, without the locked rows. */
    method DueRows(locked: set<Uuid>) returns (pool: set<Uuid>)
      ensures pool == ClaimableIds(Db()) - locked
    {
      pool := set id | id in jobs && id !in locked && jobs[id].attempts < jobs[id].maxAttempts &&
        if jobs[id].status.Pending? then jobs[id].nextAttemptAt <= now
        else jobs[id].status.Running? && jobs[id].leaseExpiresAt.Some? && jobs[id].leaseExpiresAt.value <= now;
    }

    /** The ordered and limited subquery of statement 3, with the status each row had. */
    method SelectDue(limit: nat, locked: set<Uuid>) returns (due: set<Uuid>, reclaimed: set<Uuid>)
      ensures Selected(Db(), limit, due, locked)
      ensures reclaimed == RunningIds(jobs) * due
    {
      var left := DueRows(locked);
      ghost var pool := left;
      due := {};
      while |due| < limit && left != {}
        invariant Leads(jobs, pool, due) && left == pool - due && |due| <= limit
        decreases left
      {
        var first := First(left);
        LeadsOneMore(jobs, pool, due, first);
        due := due + {first};
        left := left - {first};
      }
      LeadsEnough(jobs, pool, limit, due);
      reclaimed := set id | id in due && jobs[id].status.Running?;
    }

    /**
     Three statements and the insert loop, while other transactions hold `locked`; `tokens` are the lease tokens
     that statement 3 wrote. Which rows it took, and every column of every row of both tables.
     */
    method ClaimPendingJobs(worker: nat, limit: nat, lease: nat, locked: set<Uuid>)
      returns (results: seq<ClaimedJob>, ghost tokens: map<Uuid, Token>)
      requires Inv(Db())
      modifies this
      ensures Inv(Db())
      ensures Enabled(old(Db()), Claim(tokens, worker, lease, locked))
      ensures Selected(old(Db()), limit, tokens.Keys, locked)
      ensures TakenInOrder(old(Db()), tokens.Keys, limit, locked)
      ensures JobColumns(old(Db()), tokens, lease, locked, Db()) && AttemptColumns(old(Db()), tokens, worker, Db())
      ensures Db() == Apply(old(Db()), Claim(tokens, worker, lease, locked))
      ensures Reports(results, jobs, tokens.Keys, RunningIds(old(jobs)) * tokens.Keys)
    {
      ghost var start := Db();
      CloseStatement();
      KillStatement(locked);
      assert Db() == BeforeLeasing(start, locked);
      var due, reclaimed := SelectDue(limit, locked);
      SelectionUnchanged(start, limit, due, locked);
      SelectedInOrder(start, limit, due, locked);
      var minted' := LeaseStatement(due, lease);
      tokens := minted';
      ghost var leased := Db();
      assert leased == LeaseDue(BeforeLeasing(start, locked), start.now, tokens, lease);
      results := InsertAttempts(worker, due, minted', reclaimed);
      assert Db() == RecordAttempts(leased, start.now, tokens, worker);
      StatementsMakeClaim(start, tokens, worker, lease, locked);
      ClaimedJobColumns(start, tokens, worker, lease, locked);
      ClaimedAttemptColumns(start, tokens, worker, lease, locked);
      ClaimKeepsInv(start, tokens, worker, lease, locked);
    }

    /** Statement 1. */
    method CloseStatement()
      modifies this`attempts
      ensures Db() == CloseExpired(old(Db()), now)
      ensures attempts.Keys == old(attempts).Keys && forall k :: k in attempts ==>
        var a := old(attempts)[k];
        if a.outcome.None? && k.job in jobs && LeaseRanOut(jobs[k.job], now)
        then ClosedRow(a, attempts[k], LeaseLost, a.error, a.scheduledDelay, now)
        else attempts[k] == a
    {
      var expired := set id | id in jobs && jobs[id].status.Running? && jobs[id].leaseExpiresAt.Some?
                              && jobs[id].leaseExpiresAt.value <= now;
      attempts := map k | k in attempts ::
        if attempts[k].outcome.None? && k.job in expired
        then attempts[k].(outcome := Some(LeaseLost), finishedAt := Some(now))
        else attempts[k];
    }

    /** Statement 2. */
    method KillStatement(locked: set<Uuid>)
      modifies this`jobs
      ensures Db() == KillExhausted(old(Db()), now, locked)
      ensures jobs.Keys == old(jobs).Keys && forall id :: id in jobs ==>
        var j := old(jobs)[id];
        if LeaseRanOut(j, now) && j.attempts >= j.maxAttempts && id !in locked
        then DeadRow(j, jobs[id], LeaseExpiredBudgetExhausted, now)
        else jobs[id] == j
    {
      var exhausted := set id | id in jobs && id !in locked && jobs[id].status.Running? && jobs[id].leaseExpiresAt.Some?
                                && jobs[id].leaseExpiresAt.value <= now && jobs[id].attempts >= jobs[id].maxAttempts;
      jobs := map id | id in jobs ::
        if id in exhausted
        then jobs[id].(status := Dead, leaseToken := None, leaseExpiresAt := None,
                       lastError := Some(LeaseExpiredBudgetExhausted), finishedAt := Some(now))
        else jobs[id];
    }

    /** The update of statement 3 on the selected rows. */
    method LeaseStatement(due: set<Uuid>, lease: nat) returns (tokens: map<Uuid, Token>)
      requires due <= jobs.Keys
      modifies this`jobs, this`minted
      ensures tokens.Keys == due && FreshTokens(old(Db()), tokens)
      ensures Db() == LeaseDue(old(Db()), now, tokens, lease)
      ensures jobs.Keys == old(jobs).Keys && forall id :: id in jobs ==>
        if id in due then LeasedRow(old(jobs)[id], jobs[id], tokens[id], now + lease, now) else jobs[id] == old(jobs)[id]
    {
      tokens := MintTokens(due);
      jobs := map id | id in jobs ::
        if id in due
        then jobs[id].(status := Running, attempts := jobs[id].attempts + 1, leaseToken := Some(tokens[id]),
                       leaseExpiresAt := Some(now + lease),
                       startedAt := if jobs[id].startedAt.Some? then jobs[id].startedAt else Some(now))
        else jobs[id];
    }

    /** One guarded job update; rolled back when it matched no row, else followed by the attempt update. */
    method FinalizeSuccess(id: Uuid, token: Token) returns (ok: bool)
      modifies this`jobs, this`attempts
      ensures ok == Held(old(Db()), id, token)
      ensures Db() == Apply(old(Db()), Finalize(id, token, Success))
      ensures if ok then BecomesSucceeded(old(Db()), Db(), id, token) else Db() == old(Db())
    {
      if Held(Db(), id, token) {
        SuccessEffect(Db(), id, token);
      }
      ok := Held(Db(), id, token);
      if ok {
        jobs := jobs[id := jobs[id].(status := Succeeded, leaseToken := None, leaseExpiresAt := None,
                                     lastError := None, finishedAt := Some(now))];
        attempts := map k | k in attempts ::
          if k.job == id && attempts[k].token == token
          then attempts[k].(outcome := Some(AttemptSucceeded), finishedAt := Some(now))
          else attempts[k];
      }
    }

    method FinalizeRetryScheduled(id: Uuid, token: Token, delay: nat, code: ErrorCode) returns (ok: bool)
      modifies this`jobs, this`attempts
      ensures ok == Held(old(Db()), id, token)
      ensures Db() == Apply(old(Db()), Finalize(id, token, Retry(delay, code)))
      ensures if ok then BecomesPending(old(Db()), Db(), id, token, delay, code) else Db() == old(Db())
    {
      if Held(Db(), id, token) {
        RetryEffect(Db(), id, token, delay, code);
      }
      ok := Held(Db(), id, token);
      if ok {
        jobs := jobs[id := jobs[id].(status := Pending, leaseToken := None, leaseExpiresAt := None,
                                     nextAttemptAt := now + delay, lastError := Some(code))];
        attempts := map k | k in attempts ::
          if k.job == id && attempts[k].token == token
          then attempts[k].(outcome := Some(RetryScheduled), finishedAt := Some(now),
                            error := Some(code), scheduledDelay := Some(delay))
          else attempts[k];
      }
    }

    method FinalizeDead(id: Uuid, token: Token, reason: ErrorCode) returns (ok: bool)
      modifies this`jobs, this`attempts
      ensures ok == Held(old(Db()), id, token)
      ensures Db() == Apply(old(Db()), Finalize(id, token, Bury(reason)))
      ensures if ok then BecomesDead(old(Db()), Db(), id, token, reason) else Db() == old(Db())
    {
      if Held(Db(), id, token) {
        BuryEffect(Db(), id, token, reason);
      }
      ok := Held(Db(), id, token);
      if ok {
        jobs := jobs[id := jobs[id].(status := Dead, leaseToken := None, leaseExpiresAt := None,
                                     lastError := Some(reason), finishedAt := Some(now))];
        attempts := map k | k in attempts ::
          if k.job == id && attempts[k].token == token
          then attempts[k].(outcome := Some(AttemptDead), finishedAt := Some(now), error := Some(reason))
          else attempts[k];
      }
    }

    method RenewLease(id: Uuid, token: Token, lease: nat) returns (ok: bool)
      modifies this`jobs
      ensures ok == Held(old(Db()), id, token)
      ensures Db() == Apply(old(Db()), Renew(id, token, lease))
      ensures jobs == if ok then old(jobs)[id := old(jobs)[id].(leaseExpiresAt := Some(now + lease))] else old(jobs)
    {
      ok := Held(Db(), id, token);
      if ok {
        jobs := jobs[id := jobs[id].(leaseExpiresAt := Some(now + lease))];
      }
    }

    /** None when the job is missing or not DEAD; a constraint violation leaves the tables unchanged. */
    method RetryDeadJob(id: Uuid, budget: int) returns (r: Result<Option<Job>, RepoError>)
      modifies this`jobs
      ensures Db() == Apply(old(Db()), Replay(id, budget))
      ensures r == Ok(None) <==> !(id in old(jobs) && old(jobs)[id].status.Dead?)
      ensures r.Ok? && r.value.Some? ==>
        && id in jobs && jobs == old(jobs)[id := jobs[id]] && r.value.value == jobs[id]
        && RetriedRow(old(jobs)[id], jobs[id], budget, now)
      ensures r.Err? ==> Db() == old(Db())
      ensures id in old(jobs) && old(jobs)[id].status.Dead? ==>
        (r.Err? <==> !(1 <= budget <= I32_MAX && 0 <= old(jobs)[id].attempts <= budget))
    {
      if !(id in jobs && jobs[id].status.Dead?) {
        return Ok(None);
      }
      var row := Replayed(jobs[id], budget, now);
      if !SatisfiesChecks(row) {
        return Err(ConstraintViolation);
      }
      jobs := jobs[id := row];
      r := Ok(Some(row));
    }
  }
}
