/**
 Fencing without ABA: a lease token guards its job from the claim that minted it
 until the job leaves that claim, and never again.
 */
module Fencing {
  import opened Core
  import opened Validation
  import opened Queue
  import opened Audit

  /** What a claim fixes about a job for as long as its token guards it. */
  predicate SameClaim(a: Job, b: Job) {
    && a.status == b.status && a.leaseToken == b.leaseToken
    && a.attempts == b.attempts && a.maxAttempts == b.maxAttempts
    && a.payload == b.payload && a.startedAt == b.startedAt && a.createdAt == b.createdAt
    && a.nextAttemptAt == b.nextAttemptAt && a.lastError == b.lastError
  }

  /** A minted token that does not guard the job cannot start to, and one that still does saw no change. */
  lemma TokenStep(db: Db, e: Event, id: Uuid, token: Token)
    requires Enabled(db, e) && token in db.minted
    ensures token in Apply(db, e).minted
    ensures Held(Apply(db, e), id, token) ==>
      Held(db, id, token) && SameClaim(db.jobs[id], Apply(db, e).jobs[id])
  {
    match e
    case Claim(tokens, _, _, _) =>
      if id in tokens {
        assert tokens[id] in tokens.Values;
      }
    case Tick(_) =>
    case Insert(_, _, _) =>
    case Finalize(_, _, _) =>
    case Renew(_, _, _) =>
    case Replay(_, _) =>
  }

  lemma {:induction false} TokenRun(db: Db, es: seq<Event>, id: Uuid, token: Token)
    requires Legal(db, es) && token in db.minted
    ensures token in Exec(db, es).minted
    ensures Held(Exec(db, es), id, token) ==>
      Held(db, id, token) && SameClaim(db.jobs[id], Exec(db, es).jobs[id])
    decreases |es|
  {
    if es != [] {
      TokenStep(db, es[0], id, token);
      TokenRun(Apply(db, es[0]), es[1..], id, token);
    }
  }

  /**
   If the token still guards the job at the end of a run, it guarded it in every state of the
   run, and the job's attempts, budget and payload were all along what they were at the start.
   */
  lemma HeldThroughout(db: Db, es: seq<Event>, id: Uuid, token: Token, i: nat)
    requires Legal(db, es) && token in db.minted && i <= |es|
    requires Held(Exec(db, es), id, token)
    ensures Legal(db, es[..i]) && Held(Exec(db, es[..i]), id, token)
    ensures Held(db, id, token) && SameClaim(db.jobs[id], Exec(db, es[..i]).jobs[id])
  {
    ExecSplit(db, es, i);
    TokenRun(db, es[..i], id, token);
    TokenRun(Exec(db, es[..i]), es[i..], id, token);
  }

  /** Once a minted token no longer guards a job, every later use of it on that job changes nothing at all. */
  lemma StaleTokenIsInert(db: Db, es: seq<Event>, id: Uuid, token: Token, v: Verdict, lease: nat)
    requires Legal(db, es) && token in db.minted && !Held(db, id, token)
    ensures FinalizeTx(Exec(db, es), id, token, v) == Exec(db, es)
    ensures RenewTx(Exec(db, es), id, token, lease) == Exec(db, es)
  {
    TokenRun(db, es, id, token);
  }

  /** A finalizer in state `db` writes exactly the claimed job and the one attempt of the claim made from row `before`. */
  ghost predicate FinalizesClaim(before: Job, db: Db, id: Uuid, token: Token, v: Verdict) {
    var k := AttemptId(id, before.attempts + 1);
    && id in db.jobs && k in db.attempts && db.attempts[k].token == token
    && db.jobs[id].attempts == before.attempts + 1
    && db.jobs[id].maxAttempts == before.maxAttempts
    && db.jobs[id].payload == before.payload
    && FinalizeTx(db, id, token, v) ==
         db.(jobs := db.jobs[id := JobAfter(db.jobs[id], v, db.now)],
             attempts := db.attempts[k := AttemptAfter(db.attempts[k], v, db.now)])
  }

  /** What a claim leaves behind in a claimed job's row. */
  predicate JustClaimed(before: Job, db: Db, id: Uuid, token: Token) {
    && token in db.minted && id in db.jobs
    && db.jobs[id].attempts == before.attempts + 1 && db.jobs[id].maxAttempts == before.maxAttempts
    && db.jobs[id].payload == before.payload
  }

  lemma ClaimGuards(db: Db, tokens: map<Uuid, Token>, worker: nat, lease: nat, locked: set<Uuid>, id: Uuid)
    requires Enabled(db, Claim(tokens, worker, lease, locked)) && id in tokens
    ensures id in db.jobs && JustClaimed(db.jobs[id], ClaimTx(db, tokens, worker, lease, locked), id, tokens[id])
  {
    ClaimedJobs(db, tokens, worker, lease, locked);
    assert tokens[id] in tokens.Values;
  }

  lemma FinalizeAfterRun(before: Job, claimed: Db, es: seq<Event>, id: Uuid, token: Token, v: Verdict)
    requires Inv(claimed) && JustClaimed(before, claimed, id, token) && Legal(claimed, es)
    requires Held(Exec(claimed, es), id, token)
    ensures FinalizesClaim(before, Exec(claimed, es), id, token, v)
  {
    RunKeepsInv(claimed, es);
    TokenRun(claimed, es, id, token);
    HeldRow(Exec(claimed, es), id, token);
    FinalizePointwise(Exec(claimed, es), id, token, v);
  }

  /**
   From the claim that minted a token: whenever a finalizer with it takes effect, the job still
   shows the claimed attempt number, budget and payload, and the one attempt row rewritten is that attempt's.
   */
  lemma FencedFinalize(db: Db, tokens: map<Uuid, Token>, worker: nat, lease: nat, locked: set<Uuid>,
                       es: seq<Event>, id: Uuid, v: Verdict)
    requires Inv(db) && Enabled(db, Claim(tokens, worker, lease, locked)) && id in tokens
    requires Legal(ClaimTx(db, tokens, worker, lease, locked), es)
    requires Held(Exec(ClaimTx(db, tokens, worker, lease, locked), es), id, tokens[id])
    ensures FinalizesClaim(db.jobs[id], Exec(ClaimTx(db, tokens, worker, lease, locked), es), id, tokens[id], v)
  {
    ClaimKeepsInv(db, tokens, worker, lease, locked);
    ClaimGuards(db, tokens, worker, lease, locked, id);
    FinalizeAfterRun(db.jobs[id], ClaimTx(db, tokens, worker, lease, locked), es, id, tokens[id], v);
  }

  /** A minted token guards at most one job. */
  lemma OneJobPerToken(db: Db, id: Uuid, id': Uuid, token: Token)
    requires Inv(db) && Held(db, id, token) && Held(db, id', token)
    ensures id == id'
  {
    HeldRow(db, id, token);
    HeldRow(db, id', token);
  }

  // --- Attempt outcomes ---

  /**
   A row that has an outcome is rewritten exactly by a finalizer of the job's current holder under the row's own
   token, and then the outcome was LEASE_LOST. So every other outcome is final.
   */
  lemma OutcomeStep(db: Db, e: Event, k: AttemptId)
    requires Inv(db) && Enabled(db, e) && k in db.attempts && db.attempts[k].outcome.Some?
    ensures k in Apply(db, e).attempts
    ensures Apply(db, e).attempts[k] != db.attempts[k] <==>
      e.Finalize? && e.id == k.job && e.token == db.attempts[k].token && Held(db, e.id, e.token)
    ensures Apply(db, e).attempts[k] != db.attempts[k] ==> db.attempts[k].outcome == Some(LeaseLost)
  {
    assert k.job in db.jobs && Agrees(db.attempts[k], k.number, db.jobs[k.job]);
    match e
    case Claim(tokens, worker, lease, locked) => ClaimedAttempts(db, tokens, worker, lease, locked);
    case Finalize(id, token, v) =>
      if Held(db, id, token) {
        FinalizePointwise(db, id, token, v);
        assert Agrees(db.attempts[AttemptId(id, db.jobs[id].attempts)], db.jobs[id].attempts, db.jobs[id]);
        HeldRow(db, id, token);
      }
    case Tick(_) =>
    case Insert(_, _, _) =>
    case Renew(_, _, _) =>
    case Replay(_, _) =>
  }

  /** A row with a final outcome is never written again, in any run. */
  lemma {:induction false} FinalOutcome(db: Db, es: seq<Event>, k: AttemptId)
    requires Inv(db) && Legal(db, es) && k in db.attempts
    requires db.attempts[k].outcome.Some? && db.attempts[k].outcome != Some(LeaseLost)
    ensures k in Exec(db, es).attempts && Exec(db, es).attempts[k] == db.attempts[k]
    decreases |es|
  {
    if es != [] {
      OutcomeStep(db, es[0], k);
      StepKeepsInv(db, es[0]);
      FinalOutcome(Apply(db, es[0]), es[1..], k);
    }
  }

  /**
   LEASE_LOST is not final: a claim that takes no row still closes the attempt of every expired job, and the
   holder, whose token still guards the job, then turns that outcome into SUCCEEDED.
   */
  lemma LeaseLostOverwritten(db: Db, id: Uuid, token: Token)
    requires Inv(db) && Held(db, id, token) && Expired(db.jobs[id], db.now) && !Exhausted(db.jobs[id], db.now)
    ensures var k := AttemptId(id, db.jobs[id].attempts); var closed := ClaimTx(db, map[], 1, 30, {});
      && Enabled(db, Claim(map[], 1, 30, {})) && k in closed.attempts && closed.attempts[k].outcome == Some(LeaseLost)
      && k in FinalizeTx(closed, id, token, Success).attempts
      && FinalizeTx(closed, id, token, Success).attempts[k].outcome == Some(AttemptSucceeded)
  {
    HeldRow(db, id, token);
    ClaimedJobs(db, map[], 1, 30, {});
    ClaimedAttempts(db, map[], 1, 30, {});
    ClaimKeepsInv(db, map[], 1, 30, {});
    ClosedByEmptyClaim(db, id, token, ClaimTx(db, map[], 1, 30, {}));
    FinalizePointwise(ClaimTx(db, map[], 1, 30, {}), id, token, Success);
  }

  lemma ClosedByEmptyClaim(db: Db, id: Uuid, token: Token, closed: Db)
    requires Inv(db) && Held(db, id, token) && Expired(db.jobs[id], db.now) && !Exhausted(db.jobs[id], db.now)
    requires JobsClaimed(db, map[], 30, {}, closed) && AttemptsClaimed(db, map[], 1, closed)
    ensures id in closed.jobs && closed.jobs[id] == db.jobs[id] && Held(closed, id, token)
    ensures var k := AttemptId(id, db.jobs[id].attempts);
      k in closed.attempts && closed.attempts[k].outcome == Some(LeaseLost)
  {
    var k := AttemptId(id, db.jobs[id].attempts);
    assert k in db.attempts && Agrees(db.attempts[k], k.number, db.jobs[id]);
  }

  function ClaimAlone(id: Uuid, token: Token): Event {
    Claim(map[id := token], 1, 30, {})
  }

  lemma AloneIsHeld(db: Db, id: Uuid, token: Token)
    requires id in db.jobs && Claimable(db.jobs[id], db.now) && token !in db.minted
    ensures Enabled(db, ClaimAlone(id, token))
    ensures var claimed := Apply(db, ClaimAlone(id, token));
      && Held(claimed, id, token) && claimed.now == db.now && claimed.jobs[id].leaseExpiresAt == Some(db.now + 30)
      && claimed.jobs[id].attempts == db.jobs[id].attempts + 1 && claimed.jobs[id].maxAttempts == db.jobs[id].maxAttempts
      && claimed.jobs[id].payload == db.jobs[id].payload
  {
    var tokens: map<Uuid, Token> := map[id := token];
    assert forall t :: t in tokens.Values ==> t == token;
    ClaimedJobs(db, tokens, 1, 30, {});
    assert ClaimTx(db, tokens, 1, 30, {}).jobs[id] == JobAfterClaim(db, id, tokens, 30, {});
  }

  /** Insert, claim and wait: a run from the empty database to where LEASE_LOST will be overwritten. */
  lemma LeaseLostOverwriteHappens() returns (es: seq<Event>)
    ensures Legal(EMPTY, es)
    ensures var db := Exec(EMPTY, es); Held(db, 0, 1) && Expired(db.jobs[0], db.now) && !Exhausted(db.jobs[0], db.now)
  {
    var inserted := Apply(EMPTY, Insert(0, OtherShape, 2));
    AloneIsHeld(inserted, 0, 1);
    var claimed := Apply(inserted, ClaimAlone(0, 1));
    es := Prepend(claimed, Tick(30), []);
    es := Prepend(inserted, ClaimAlone(0, 1), es);
    es := Prepend(EMPTY, Insert(0, OtherShape, 2), es);
  }
}
