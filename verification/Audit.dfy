/**
 The database invariant: every constraint of the schema, and agreement between
 the job_attempts log and the job rows. It is kept by every transaction issued by
 anybody with any arguments, so it holds after every run.
 */
module Audit {
  import opened Core
  import opened Queue

  ghost predicate Schema(db: Db) {
    forall id :: id in db.jobs ==> SatisfiesChecks(db.jobs[id])
  }

  /** A job's attempt rows are numbered exactly 1..attempts, and belong to an existing job. */
  ghost predicate Numbered(db: Db) {
    forall k: AttemptId :: k in db.attempts <==>
      k.job in db.jobs && 1 <= k.number <= db.jobs[k.job].attempts
  }

  /** What one attempt row says agrees with its job row. */
  predicate Agrees(a: Attempt, number: int, j: Job) {
    var last := number == j.attempts;
    && (a.outcome.None? <==> a.finishedAt.None?)
    && (a.outcome.None? ==> last && j.status.Running?)
    && (last && j.status.Running? ==> j.leaseToken == Some(a.token) && (a.outcome.None? || a.outcome == Some(LeaseLost)))
    && (a.outcome == Some(AttemptSucceeded) <==> last && j.status.Succeeded?)
    && (last && j.status.Dead? ==> (a.outcome == Some(AttemptDead) || a.outcome == Some(LeaseLost)))
  }

  ghost predicate LogAgrees(db: Db) {
    forall k :: k in db.attempts && k.job in db.jobs ==>
      Agrees(db.attempts[k], k.number, db.jobs[k.job])
  }

  /** A job that left PENDING was claimed before, and only a terminal job has a finish time. */
  ghost predicate Started(db: Db) {
    forall id :: id in db.jobs && !db.jobs[id].status.Pending? ==>
      && db.jobs[id].attempts >= 1
      && (db.jobs[id].status.Running? ==> db.jobs[id].finishedAt.None?)
  }

  /** No two attempt rows, of any jobs, share a token, and every token in the log was minted. */
  ghost predicate TokensUnique(db: Db) {
    && (forall k :: k in db.attempts ==> db.attempts[k].token in db.minted)
    && (forall k, k' :: k in db.attempts && k' in db.attempts && db.attempts[k].token == db.attempts[k'].token ==> k == k')
  }

  ghost predicate Inv(db: Db) {
    && Schema(db)
    && Numbered(db)
    && LogAgrees(db)
    && Started(db)
    && TokensUnique(db)
  }

  /** The last attempt row of a RUNNING job carries its token. */
  ghost predicate HolderLogged(db: Db) {
    forall id :: id in db.jobs && db.jobs[id].status.Running? ==>
      var k := AttemptId(id, db.jobs[id].attempts);
      k in db.attempts && db.jobs[id].leaseToken == Some(db.attempts[k].token)
  }

  /** What fencing needs of the log: less than Inv, and kept by more. */
  ghost predicate Logged(db: Db) {
    Numbered(db) && TokensUnique(db) && HolderLogged(db) && forall id :: id in db.jobs ==> db.jobs[id].attempts >= 0
  }

  lemma InvIsLogged(db: Db)
    requires Inv(db)
    ensures Logged(db)
  {
    assert forall id :: id in db.jobs ==> SatisfiesChecks(db.jobs[id]);
    forall id | id in db.jobs && db.jobs[id].status.Running?
      ensures AttemptId(id, db.jobs[id].attempts) in db.attempts
      ensures db.jobs[id].leaseToken == Some(db.attempts[AttemptId(id, db.jobs[id].attempts)].token)
    {
      var k := AttemptId(id, db.jobs[id].attempts);
      assert k in db.attempts && Agrees(db.attempts[k], k.number, db.jobs[id]);
    }
  }

  // --- What one claim does to one row ---

  function JobAfterClaim(db: Db, id: Uuid, tokens: map<Uuid, Token>, lease: nat, locked: set<Uuid>): Job
    requires id in db.jobs
  {
    var j := db.jobs[id];
    var k := if Exhausted(j, db.now) && id !in locked then Killed(j, db.now) else j;
    if id in tokens then Leased(k, tokens[id], db.now, lease) else k
  }

  function AttemptAfterClaim(db: Db, k: AttemptId): Attempt
    requires k in db.attempts
  {
    if Dangling(db, k, db.now)
    then db.attempts[k].(outcome := Some(LeaseLost), finishedAt := Some(db.now))
    else db.attempts[k]
  }

  predicate IsNewAttempt(db: Db, k: AttemptId, tokens: map<Uuid, Token>) {
    k.job in tokens && k.job in db.jobs && k.number == db.jobs[k.job].attempts + 1
  }

  /** The job rows after a claim. */
  ghost predicate JobsClaimed(db: Db, tokens: map<Uuid, Token>, lease: nat, locked: set<Uuid>, db': Db) {
    && db'.now == db.now && db'.minted == db.minted + tokens.Values
    && db'.jobs.Keys == db.jobs.Keys
    && (forall id :: id in db.jobs ==> db'.jobs[id] == JobAfterClaim(db, id, tokens, lease, locked))
  }

  /** The attempt rows after a claim: the old ones, then one new row per claimed job. */
  ghost predicate AttemptsClaimed(db: Db, tokens: map<Uuid, Token>, worker: nat, db': Db) {
    && (forall k :: k in db'.attempts <==> k in db.attempts || IsNewAttempt(db, k, tokens))
    && (forall k :: k in db.attempts ==> db'.attempts[k] == AttemptAfterClaim(db, k))
    && (forall k :: IsNewAttempt(db, k, tokens) ==>
          k !in db.attempts && db'.attempts[k] == NewAttempt(worker, tokens[k.job], db.now))
  }

  lemma ClaimedJobs(db: Db, tokens: map<Uuid, Token>, worker: nat, lease: nat, locked: set<Uuid>)
    requires tokens.Keys <= db.jobs.Keys
    ensures JobsClaimed(db, tokens, lease, locked, ClaimTx(db, tokens, worker, lease, locked))
  {
  }

  /** The insert loop on any tables: a row already there stays, and each claimed job gets its row. */
  lemma RecordedRow(db: Db, t: Time, tokens: map<Uuid, Token>, worker: nat, k: AttemptId)
    requires tokens.Keys <= db.jobs.Keys
    ensures var after := RecordAttempts(db, t, tokens, worker).attempts;
      var isNew := k.job in tokens && k.number == db.jobs[k.job].attempts;
      && (k in after <==> k in db.attempts || isNew)
      && (isNew ==> after[k] == NewAttempt(worker, tokens[k.job], t))
      && (k in db.attempts && !isNew ==> after[k] == db.attempts[k])
  {
    assert k in NewAttemptIds(db.jobs, tokens.Keys) <==> k.job in tokens && k.number == db.jobs[k.job].attempts by {
      assert k == AttemptId(k.job, k.number);
    }
  }

  // --- Preservation, statement by statement ---

  /** No job expired at t has an open attempt: what statement 1 establishes and the later statements rely on. */
  ghost predicate NoDangling(db: Db, t: Time) {
    forall k :: k in db.attempts ==> !Dangling(db, k, t)
  }

  lemma CloseKeepsInv(db: Db, t: Time)
    requires Inv(db)
    ensures Inv(CloseExpired(db, t)) && NoDangling(CloseExpired(db, t), t)
  {
    var db' := CloseExpired(db, t);
    forall k | k in db'.attempts && k.job in db'.jobs
      ensures Agrees(db'.attempts[k], k.number, db'.jobs[k.job])
      ensures db'.attempts[k].token == db.attempts[k].token
    {
      assert Agrees(db.attempts[k], k.number, db.jobs[k.job]);
    }
    assert db'.attempts.Keys == db.attempts.Keys;
  }

  lemma KillKeepsInv(db: Db, t: Time, locked: set<Uuid>)
    requires Inv(db) && NoDangling(db, t)
    ensures Inv(KillExhausted(db, t, locked)) && NoDangling(KillExhausted(db, t, locked), t)
  {
    var db' := KillExhausted(db, t, locked);
    forall k | k in db'.attempts && k.job in db'.jobs
      ensures Agrees(db'.attempts[k], k.number, db'.jobs[k.job])
    {
      assert Agrees(db.attempts[k], k.number, db.jobs[k.job]) && !Dangling(db, k, t);
    }
  }

  /** The rows after statement 3 and the insert loop. */
  ghost predicate RowsAdded(db: Db, t: Time, tokens: map<Uuid, Token>, worker: nat, db': Db) {
    && (forall k :: k in db'.attempts <==> k in db.attempts || IsNewAttempt(db, k, tokens))
    && (forall k :: k in db.attempts ==> db'.attempts[k] == db.attempts[k])
    && (forall k :: IsNewAttempt(db, k, tokens) ==>
          k !in db.attempts && db'.attempts[k] == NewAttempt(worker, tokens[k.job], t))
  }

  ghost predicate CanLease(db: Db, t: Time, tokens: map<Uuid, Token>) {
    && (forall id :: id in tokens ==> id in db.jobs && Claimable(db.jobs[id], t))
    && FreshTokens(db, tokens)
  }

  function LeaseAndRecord(db: Db, t: Time, tokens: map<Uuid, Token>, worker: nat, lease: nat): Db
    requires tokens.Keys <= db.jobs.Keys
  {
    RecordAttempts(LeaseDue(db, t, tokens, lease), t, tokens, worker)
  }

  lemma LeaseAddsRows(db: Db, t: Time, tokens: map<Uuid, Token>, worker: nat, lease: nat)
    requires Numbered(db) && tokens.Keys <= db.jobs.Keys
    ensures RowsAdded(db, t, tokens, worker, LeaseAndRecord(db, t, tokens, worker, lease))
  {
    var leased := LeaseDue(db, t, tokens, lease);
    var db' := RecordAttempts(leased, t, tokens, worker);
    forall k: AttemptId
      ensures k in db'.attempts <==> k in db.attempts || IsNewAttempt(db, k, tokens)
      ensures k in db.attempts ==> db'.attempts[k] == db.attempts[k]
      ensures IsNewAttempt(db, k, tokens) ==>
        k !in db.attempts && db'.attempts[k] == NewAttempt(worker, tokens[k.job], t)
    {
      RecordedRow(leased, t, tokens, worker, k);
    }
  }

  lemma AddedRowsKeepTokens(db: Db, t: Time, tokens: map<Uuid, Token>, worker: nat, db': Db)
    requires TokensUnique(db) && FreshTokens(db, tokens)
    requires db'.minted == db.minted + tokens.Values && RowsAdded(db, t, tokens, worker, db')
    ensures TokensUnique(db')
  {
    forall k | k in db'.attempts
      ensures k in db.attempts ==> db'.attempts[k].token == db.attempts[k].token
      ensures k !in db.attempts ==> IsNewAttempt(db, k, tokens) && db'.attempts[k].token == tokens[k.job]
      ensures db'.attempts[k].token in db'.minted
    {
    }
  }

  lemma AddedRowsAgree(db: Db, t: Time, tokens: map<Uuid, Token>, worker: nat, lease: nat, db': Db)
    requires Inv(db) && NoDangling(db, t) && CanLease(db, t, tokens)
    requires db'.jobs == LeaseDue(db, t, tokens, lease).jobs && RowsAdded(db, t, tokens, worker, db')
    ensures LogAgrees(db') && Numbered(db')
  {
    forall k | k in db'.attempts && k.job in db'.jobs
      ensures Agrees(db'.attempts[k], k.number, db'.jobs[k.job])
    {
      if k in db.attempts {
        assert Agrees(db.attempts[k], k.number, db.jobs[k.job]) && !Dangling(db, k, t);
      }
    }
  }

  lemma LeasedJobsPass(db: Db, t: Time, tokens: map<Uuid, Token>, lease: nat)
    requires Schema(db) && Started(db) && CanLease(db, t, tokens)
    ensures Schema(LeaseDue(db, t, tokens, lease)) && Started(LeaseDue(db, t, tokens, lease))
  {
  }

  lemma LeaseKeepsInv(db: Db, t: Time, tokens: map<Uuid, Token>, worker: nat, lease: nat)
    requires Inv(db) && NoDangling(db, t) && CanLease(db, t, tokens)
    ensures Inv(LeaseAndRecord(db, t, tokens, worker, lease))
  {
    LeaseAddsRows(db, t, tokens, worker, lease);
    LeasedJobsPass(db, t, tokens, lease);
    LeasedKeepsInv(db, t, tokens, worker, lease, LeaseDue(db, t, tokens, lease), LeaseAndRecord(db, t, tokens, worker, lease));
  }

  lemma LeasedKeepsInv(db: Db, t: Time, tokens: map<Uuid, Token>, worker: nat, lease: nat, leased: Db, db': Db)
    requires Inv(db) && NoDangling(db, t) && CanLease(db, t, tokens)
    requires leased == LeaseDue(db, t, tokens, lease) && Schema(leased) && Started(leased)
    requires db'.jobs == leased.jobs && db'.minted == leased.minted && RowsAdded(db, t, tokens, worker, db')
    ensures Inv(db')
  {
    AddedRowsAgree(db, t, tokens, worker, lease, db');
    AddedRowsKeepTokens(db, t, tokens, worker, db');
  }

  /** Closing attempts and burying exhausted jobs leaves every claimable row as it was. */
  lemma ClaimableUnchanged(db: Db, t: Time, locked: set<Uuid>, id: Uuid)
    requires id in db.jobs
    ensures var jobs' := KillExhausted(CloseExpired(db, t), t, locked).jobs;
      id in jobs' && (Claimable(db.jobs[id], t) <==> Claimable(jobs'[id], t)) && (Claimable(db.jobs[id], t) ==> jobs'[id] == db.jobs[id])
  {
  }

  /** The tables between statements 2 and 3: attempts closed, attempt counts untouched. */
  lemma BeforeStatementThree(db: Db, t: Time, locked: set<Uuid>)
    ensures var killed := KillExhausted(CloseExpired(db, t), t, locked);
      && killed.attempts == CloseExpired(db, t).attempts && killed.attempts.Keys == db.attempts.Keys
      && killed.jobs.Keys == db.jobs.Keys && killed.now == db.now && killed.minted == db.minted
      && forall id :: id in db.jobs ==> killed.jobs[id].attempts == db.jobs[id].attempts
  {
  }

  lemma ClaimedAttempts(db: Db, tokens: map<Uuid, Token>, worker: nat, lease: nat, locked: set<Uuid>)
    requires Numbered(db) && Enabled(db, Claim(tokens, worker, lease, locked))
    ensures AttemptsClaimed(db, tokens, worker, ClaimTx(db, tokens, worker, lease, locked))
  {
    var killed := KillExhausted(CloseExpired(db, db.now), db.now, locked);
    BeforeStatementThree(db, db.now, locked);
    LeaseAddsRows(killed, db.now, tokens, worker, lease);
    AddedAfterClosing(db, killed, tokens, worker, ClaimTx(db, tokens, worker, lease, locked));
  }

  lemma AddedAfterClosing(db: Db, killed: Db, tokens: map<Uuid, Token>, worker: nat, db': Db)
    requires killed.jobs.Keys == db.jobs.Keys && forall id :: id in db.jobs ==> killed.jobs[id].attempts == db.jobs[id].attempts
    requires killed.attempts == CloseExpired(db, db.now).attempts
    requires RowsAdded(killed, db.now, tokens, worker, db')
    ensures AttemptsClaimed(db, tokens, worker, db')
  {
    forall k: AttemptId
      ensures IsNewAttempt(killed, k, tokens) <==> IsNewAttempt(db, k, tokens)
      ensures k in killed.attempts <==> k in db.attempts
      ensures k in db.attempts ==> killed.attempts[k] == AttemptAfterClaim(db, k)
    {
    }
  }

  /** After statements 1 and 2 the selected rows can still be leased. */
  lemma StillLeasable(db: Db, tokens: map<Uuid, Token>, worker: nat, lease: nat, locked: set<Uuid>)
    requires Enabled(db, Claim(tokens, worker, lease, locked))
    ensures CanLease(KillExhausted(CloseExpired(db, db.now), db.now, locked), db.now, tokens)
  {
    forall id | id in tokens {
      ClaimableUnchanged(db, db.now, locked, id);
    }
  }

  lemma ClaimKeepsInv(db: Db, tokens: map<Uuid, Token>, worker: nat, lease: nat, locked: set<Uuid>)
    requires Inv(db) && Enabled(db, Claim(tokens, worker, lease, locked))
    ensures Inv(ClaimTx(db, tokens, worker, lease, locked))
  {
    var closed := CloseExpired(db, db.now);
    CloseKeepsInv(db, db.now);
    KillKeepsInv(closed, db.now, locked);
    StillLeasable(db, tokens, worker, lease, locked);
    LeaseKeepsInv(KillExhausted(closed, db.now, locked), db.now, tokens, worker, lease);
  }

  // --- Preservation by the other transactions ---

  /** The row a held token closes: the job's last attempt, and only that one. */
  lemma HeldRow(db: Db, id: Uuid, token: Token)
    requires (Inv(db) || Logged(db)) && Held(db, id, token)
    ensures var k := AttemptId(id, db.jobs[id].attempts);
      && k in db.attempts && db.attempts[k].token == token
      && (forall k' :: k' in db.attempts && db.attempts[k'].token == token ==> k' == k)
  {
    if Inv(db) {
      InvIsLogged(db);
    }
  }

  /** A finalizer that matched changes one job row and one attempt row. */
  lemma FinalizePointwise(db: Db, id: Uuid, token: Token, v: Verdict)
    requires (Inv(db) || Logged(db)) && Held(db, id, token)
    ensures var k := AttemptId(id, db.jobs[id].attempts);
      k in db.attempts &&
      FinalizeTx(db, id, token, v) ==
        db.(jobs := db.jobs[id := JobAfter(db.jobs[id], v, db.now)],
            attempts := db.attempts[k := AttemptAfter(db.attempts[k], v, db.now)])
  {
    HeldRow(db, id, token);
    var k := AttemptId(id, db.jobs[id].attempts);
    assert FinalizeTx(db, id, token, v).attempts == db.attempts[k := AttemptAfter(db.attempts[k], v, db.now)];
  }

  /** Rewriting a job together with its last attempt row keeps the invariant if the two agree. */
  lemma RewriteKeepsInv(db: Db, id: Uuid, j: Job, a: Attempt, db': Db)
    requires Inv(db) && id in db.jobs
    requires var was := db.jobs[id];
      && was.attempts >= 1 && j.attempts == was.attempts
      && SatisfiesChecks(j) && (j.status.Running? ==> j.finishedAt.None?)
      && AttemptId(id, was.attempts) in db.attempts
      && a.token == db.attempts[AttemptId(id, was.attempts)].token
      && Agrees(a, was.attempts, j)
      && db' == db.(jobs := db.jobs[id := j], attempts := db.attempts[AttemptId(id, was.attempts) := a])
    ensures Inv(db')
  {
    var last := AttemptId(id, db.jobs[id].attempts);
    assert db'.attempts.Keys == db.attempts.Keys;
    assert forall k :: k in db.attempts ==> db'.attempts[k].token == db.attempts[k].token;
    forall k | k in db'.attempts && k.job in db'.jobs
      ensures Agrees(db'.attempts[k], k.number, db'.jobs[k.job])
    {
      if k != last {
        assert Agrees(db.attempts[k], k.number, db.jobs[k.job]);
      }
    }
  }

  lemma FinalizeKeepsInv(db: Db, id: Uuid, token: Token, v: Verdict)
    requires Inv(db)
    ensures Inv(FinalizeTx(db, id, token, v))
  {
    if Held(db, id, token) {
      FinalizePointwise(db, id, token, v);
      var k := AttemptId(id, db.jobs[id].attempts);
      assert Agrees(db.attempts[k], k.number, db.jobs[id]);
      assert SatisfiesChecks(db.jobs[id]);
      RewriteKeepsInv(db, id, JobAfter(db.jobs[id], v, db.now), AttemptAfter(db.attempts[k], v, db.now),
                      FinalizeTx(db, id, token, v));
    }
  }

  lemma StepKeepsInv(db: Db, e: Event)
    requires Inv(db) && Enabled(db, e)
    ensures Inv(Apply(db, e))
  {
    match e
    case Tick(_) =>
    case Insert(_, _, _) =>
    case Claim(tokens, worker, lease, locked) => ClaimKeepsInv(db, tokens, worker, lease, locked);
    case Finalize(id, token, verdict) => FinalizeKeepsInv(db, id, token, verdict);
    case Renew(_, _, _) =>
    case Replay(_, _) =>
  }

  lemma {:induction false} RunKeepsInv(db: Db, es: seq<Event>)
    requires Inv(db) && Legal(db, es)
    ensures Inv(Exec(db, es))
    decreases |es|
  {
    if es != [] {
      StepKeepsInv(db, es[0]);
      RunKeepsInv(Apply(db, es[0]), es[1..]);
    }
  }

  // --- What the invariant says ---

  /** After every run the log of a job is complete, closed behind its last row, and agrees with its status. */
  lemma AuditTrail(es: seq<Event>, id: Uuid)
    requires Legal(EMPTY, es) && id in Exec(EMPTY, es).jobs
    ensures var db := Exec(EMPTY, es); var j := db.jobs[id];
      && SatisfiesChecks(j)
      && (forall n :: AttemptId(id, n) in db.attempts <==> 1 <= n <= j.attempts)
      && (forall n :: 1 <= n < j.attempts ==>
            db.attempts[AttemptId(id, n)].outcome.Some? && db.attempts[AttemptId(id, n)].outcome != Some(AttemptSucceeded))
      && (forall n :: 1 <= n <= j.attempts && db.attempts[AttemptId(id, n)].outcome.None? ==>
            n == j.attempts && Held(db, id, db.attempts[AttemptId(id, n)].token))
      && (j.status.Succeeded? <==> j.attempts >= 1 && db.attempts[AttemptId(id, j.attempts)].outcome == Some(AttemptSucceeded))
  {
    RunKeepsInv(EMPTY, es);
    var db := Exec(EMPTY, es);
    forall n | 1 <= n <= db.jobs[id].attempts
      ensures AttemptId(id, n) in db.attempts && Agrees(db.attempts[AttemptId(id, n)], n, db.jobs[id])
    {
    }
  }

  /** No statement of a claim is ever rejected by a CHECK, and no attempt insert by the UNIQUE constraint. */
  lemma ClaimNeverRejected(db: Db, tokens: map<Uuid, Token>, worker: nat, lease: nat, locked: set<Uuid>)
    requires Inv(db) && Enabled(db, Claim(tokens, worker, lease, locked))
    ensures var killed := KillExhausted(CloseExpired(db, db.now), db.now, locked);
      var leased := LeaseDue(killed, db.now, tokens, lease);
      && Schema(killed) && Schema(leased)
      && forall id :: id in tokens ==> AttemptId(id, leased.jobs[id].attempts) !in leased.attempts
  {
    CloseKeepsInv(db, db.now);
    KillKeepsInv(CloseExpired(db, db.now), db.now, locked);
    StillLeasable(db, tokens, worker, lease, locked);
  }

  /** Writing the row a finalizer or a renewal computes can never be rejected by a CHECK. */
  lemma LeaseWritesNeverRejected(db: Db, id: Uuid, token: Token, v: Verdict, expiry: Time)
    requires Inv(db) && Held(db, id, token)
    ensures SatisfiesChecks(JobAfter(db.jobs[id], v, db.now))
    ensures SatisfiesChecks(db.jobs[id].(leaseExpiresAt := Some(expiry)))
  {
    assert SatisfiesChecks(db.jobs[id]);
  }

  /** A replay of a DEAD job is rejected exactly when its budget is below what was spent (or over 32 bits). */
  lemma ReplayRejectedExactly(db: Db, id: Uuid, budget: int)
    requires Inv(db) && id in db.jobs && db.jobs[id].status.Dead?
    ensures ReplayTx(db, id, budget) == db <==> budget < db.jobs[id].attempts || budget > I32_MAX
  {
    var row := Replayed(db.jobs[id], budget, db.now);
    assert SatisfiesChecks(db.jobs[id]);
    if SatisfiesChecks(row) {
      assert ReplayTx(db, id, budget).jobs[id].status.Pending?;
    }
  }

  // --- What fencing needs, from any state that has it ---

  lemma LeaseKeepsLogged(db: Db, t: Time, tokens: map<Uuid, Token>, worker: nat, lease: nat)
    requires Logged(db) && CanLease(db, t, tokens)
    ensures Logged(LeaseAndRecord(db, t, tokens, worker, lease))
  {
    LeaseAddsRows(db, t, tokens, worker, lease);
    AddedRowsLogged(db, t, tokens, worker, lease, LeaseAndRecord(db, t, tokens, worker, lease));
  }

  lemma AddedRowsLogged(db: Db, t: Time, tokens: map<Uuid, Token>, worker: nat, lease: nat, db': Db)
    requires Logged(db) && CanLease(db, t, tokens) && RowsAdded(db, t, tokens, worker, db')
    requires db'.jobs == LeaseDue(db, t, tokens, lease).jobs && db'.minted == db.minted + tokens.Values
    ensures Logged(db')
  {
    AddedRowsKeepTokens(db, t, tokens, worker, db');
    forall id | id in db'.jobs && db'.jobs[id].status.Running?
      ensures AttemptId(id, db'.jobs[id].attempts) in db'.attempts
      ensures db'.jobs[id].leaseToken == Some(db'.attempts[AttemptId(id, db'.jobs[id].attempts)].token)
    {
      var k := AttemptId(id, db'.jobs[id].attempts);
      if id in tokens {
        assert IsNewAttempt(db, k, tokens);
      } else {
        assert k in db.attempts;
      }
    }
  }

  lemma CloseKeepsLogged(db: Db, t: Time)
    requires Logged(db)
    ensures Logged(CloseExpired(db, t))
  {
    assert CloseExpired(db, t).attempts.Keys == db.attempts.Keys;
  }

  lemma KillKeepsLogged(db: Db, t: Time, locked: set<Uuid>)
    requires Logged(db)
    ensures Logged(KillExhausted(db, t, locked))
  {
  }

  lemma ClaimKeepsLogged(db: Db, tokens: map<Uuid, Token>, worker: nat, lease: nat, locked: set<Uuid>)
    requires Logged(db) && Enabled(db, Claim(tokens, worker, lease, locked))
    ensures Logged(ClaimTx(db, tokens, worker, lease, locked))
  {
    var closed := CloseExpired(db, db.now);
    CloseKeepsLogged(db, db.now);
    KillKeepsLogged(closed, db.now, locked);
    StillLeasable(db, tokens, worker, lease, locked);
    LeaseKeepsLogged(KillExhausted(closed, db.now, locked), db.now, tokens, worker, lease);
  }

  lemma FinalizeKeepsLogged(db: Db, id: Uuid, token: Token, v: Verdict)
    requires Logged(db)
    ensures Logged(FinalizeTx(db, id, token, v))
  {
    if Held(db, id, token) {
      FinalizePointwise(db, id, token, v);
      var k := AttemptId(id, db.jobs[id].attempts);
      RewriteKeepsLogged(db, k, JobAfter(db.jobs[id], v, db.now), AttemptAfter(db.attempts[k], v, db.now),
                         FinalizeTx(db, id, token, v));
    }
  }

  lemma RewriteKeepsLogged(db: Db, k: AttemptId, j: Job, a: Attempt, db': Db)
    requires Logged(db) && k.job in db.jobs && k in db.attempts
    requires j.attempts == db.jobs[k.job].attempts && !j.status.Running? && a.token == db.attempts[k].token
    requires db' == db.(jobs := db.jobs[k.job := j], attempts := db.attempts[k := a])
    ensures Logged(db')
  {
    assert db'.attempts.Keys == db.attempts.Keys;
  }

  lemma StepKeepsLogged(db: Db, e: Event)
    requires Logged(db) && Enabled(db, e)
    ensures Logged(Apply(db, e))
  {
    match e
    case Claim(tokens, worker, lease, locked) => ClaimKeepsLogged(db, tokens, worker, lease, locked);
    case Finalize(id, token, v) => FinalizeKeepsLogged(db, id, token, v);
    case Tick(_) =>
    case Insert(_, _, _) =>
    case Renew(_, _, _) =>
    case Replay(_, _) =>
  }
}
