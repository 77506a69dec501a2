/**
 What each transaction does, column by column: the statements of the repository read as promises about the rows
 before and after, and proofs that the value model keeps them. Every column of a touched row is named, and every
 other row is said to stay.
 */
module Effects {
  import opened Core
  import opened Validation
  import opened Queue
  import opened Audit
  import opened Selection

  // --- Single rows ---

  /** Columns that only submission writes. */
  predicate SameOrigin(j: Job, j': Job) {
    j'.payload == j.payload && j'.createdAt == j.createdAt
  }

  predicate SameSchedule(j: Job, j': Job) {
    j'.attempts == j.attempts && j'.maxAttempts == j.maxAttempts && j'.nextAttemptAt == j.nextAttemptAt
  }

  predicate Unleased(j: Job) {
    j.leaseToken.None? && j.leaseExpiresAt.None?
  }

  /** A job as submitted at time t. */
  predicate Submitted(j: Job, payload: Json, budget: int, t: Time) {
    && j.payload == payload && j.status.Pending? && j.attempts == 0 && j.maxAttempts == budget
    && j.nextAttemptAt == t && j.createdAt == t
    && Unleased(j) && j.lastError.None? && j.startedAt.None? && j.finishedAt.None?
  }

  predicate LeasedRow(j: Job, j': Job, token: Token, expiry: Time, t: Time) {
    && SameOrigin(j, j') && j'.status.Running? && j'.attempts == j.attempts + 1 && j'.maxAttempts == j.maxAttempts
    && j'.nextAttemptAt == j.nextAttemptAt && j'.leaseToken == Some(token) && j'.leaseExpiresAt == Some(expiry)
    && j'.lastError == j.lastError && j'.finishedAt == j.finishedAt
    && j'.startedAt == (if j.startedAt.None? then Some(t) else j.startedAt)
  }

  predicate DeadRow(j: Job, j': Job, reason: ErrorCode, t: Time) {
    && SameOrigin(j, j') && SameSchedule(j, j') && Unleased(j')
    && j'.status.Dead? && j'.lastError == Some(reason) && j'.finishedAt == Some(t) && j'.startedAt == j.startedAt
  }

  predicate SucceededRow(j: Job, j': Job, t: Time) {
    && SameOrigin(j, j') && SameSchedule(j, j') && Unleased(j')
    && j'.status.Succeeded? && j'.lastError.None? && j'.finishedAt == Some(t) && j'.startedAt == j.startedAt
  }

  predicate RescheduledRow(j: Job, j': Job, due: Time, code: ErrorCode) {
    && SameOrigin(j, j') && Unleased(j') && j'.attempts == j.attempts && j'.maxAttempts == j.maxAttempts
    && j'.status.Pending? && j'.nextAttemptAt == due && j'.lastError == Some(code)
    && j'.finishedAt == j.finishedAt && j'.startedAt == j.startedAt
  }

  predicate RetriedRow(j: Job, j': Job, budget: int, t: Time) {
    && SameOrigin(j, j') && Unleased(j') && j'.attempts == j.attempts && j'.maxAttempts == budget
    && j'.status.Pending? && j'.nextAttemptAt == t && j'.lastError.None? && j'.finishedAt.None? && j'.startedAt == j.startedAt
  }

  predicate OpenedRow(a: Attempt, worker: nat, token: Token, t: Time) {
    && a.worker == worker && a.token == token && a.startedAt == t
    && a.finishedAt.None? && a.outcome.None? && a.error.None? && a.scheduledDelay.None?
  }

  predicate ClosedRow(a: Attempt, a': Attempt, outcome: Outcome, error: Option<ErrorCode>, delay: Option<nat>, t: Time) {
    && a'.worker == a.worker && a'.token == a.token && a'.startedAt == a.startedAt
    && a'.finishedAt == Some(t) && a'.outcome == Some(outcome) && a'.error == error && a'.scheduledDelay == delay
  }

  // --- Finalizers ---

  /** Only the job and the attempt rows under the token changed, and those attempt rows are closed now. */
  predicate OnlyHeldRowsChanged(db: Db, db': Db, id: Uuid, token: Token) {
    && db'.now == db.now && db'.minted == db.minted
    && id in db.jobs && id in db'.jobs && db'.jobs == db.jobs[id := db'.jobs[id]]
    && db'.attempts.Keys == db.attempts.Keys
    && forall k :: k in db.attempts && !(k.job == id && db.attempts[k].token == token) ==> db'.attempts[k] == db.attempts[k]
  }

  predicate BecomesSucceeded(db: Db, db': Db, id: Uuid, token: Token) {
    && OnlyHeldRowsChanged(db, db', id, token) && SucceededRow(db.jobs[id], db'.jobs[id], db.now)
    && forall k :: k in db.attempts && k.job == id && db.attempts[k].token == token ==>
         var a := db.attempts[k]; ClosedRow(a, db'.attempts[k], AttemptSucceeded, a.error, a.scheduledDelay, db.now)
  }

  predicate BecomesPending(db: Db, db': Db, id: Uuid, token: Token, delay: nat, code: ErrorCode) {
    && OnlyHeldRowsChanged(db, db', id, token) && RescheduledRow(db.jobs[id], db'.jobs[id], db.now + delay, code)
    && forall k :: k in db.attempts && k.job == id && db.attempts[k].token == token ==>
         ClosedRow(db.attempts[k], db'.attempts[k], RetryScheduled, Some(code), Some(delay), db.now)
  }

  predicate BecomesDead(db: Db, db': Db, id: Uuid, token: Token, reason: ErrorCode) {
    && OnlyHeldRowsChanged(db, db', id, token) && DeadRow(db.jobs[id], db'.jobs[id], reason, db.now)
    && forall k :: k in db.attempts && k.job == id && db.attempts[k].token == token ==>
         var a := db.attempts[k]; ClosedRow(a, db'.attempts[k], AttemptDead, Some(reason), a.scheduledDelay, db.now)
  }

  lemma SuccessEffect(db: Db, id: Uuid, token: Token)
    requires Held(db, id, token)
    ensures BecomesSucceeded(db, FinalizeTx(db, id, token, Success), id, token)
  {
  }

  lemma RetryEffect(db: Db, id: Uuid, token: Token, delay: nat, code: ErrorCode)
    requires Held(db, id, token)
    ensures BecomesPending(db, FinalizeTx(db, id, token, Retry(delay, code)), id, token, delay, code)
  {
  }

  lemma BuryEffect(db: Db, id: Uuid, token: Token, reason: ErrorCode)
    requires Held(db, id, token)
    ensures BecomesDead(db, FinalizeTx(db, id, token, Bury(reason)), id, token, reason)
  {
  }

  // --- Claim ---

  predicate LeaseRanOut(j: Job, t: Time) {
    j.status.Running? && j.leaseExpiresAt.Some? && j.leaseExpiresAt.value <= t
  }

  /** Every job row after a claim. */
  predicate JobColumns(db: Db, tokens: map<Uuid, Token>, lease: nat, locked: set<Uuid>, db': Db) {
    && db'.now == db.now && db'.minted == db.minted + tokens.Values && db'.jobs.Keys == db.jobs.Keys
    && forall id :: id in db.jobs ==>
         var j, j' := db.jobs[id], db'.jobs[id];
         if id in tokens then LeasedRow(j, j', tokens[id], db.now + lease, db.now)
         else if LeaseRanOut(j, db.now) && j.attempts >= j.maxAttempts && id !in locked
         then DeadRow(j, j', LeaseExpiredBudgetExhausted, db.now)
         else j' == j
  }

  /** Every attempt row after a claim. */
  predicate AttemptColumns(db: Db, tokens: map<Uuid, Token>, worker: nat, db': Db) {
    && (forall k :: k in db.attempts ==>
         && k in db'.attempts
         && var a, a' := db.attempts[k], db'.attempts[k];
         if a.outcome.None? && k.job in db.jobs && LeaseRanOut(db.jobs[k.job], db.now)
         then ClosedRow(a, a', LeaseLost, a.error, a.scheduledDelay, db.now)
         else a' == a)
    && (forall k :: k in db'.attempts && k !in db.attempts ==>
         k.job in tokens && k.job in db.jobs && k.number == db.jobs[k.job].attempts + 1)
    && (forall id :: id in tokens ==>
         && id in db.jobs
         && var k := AttemptId(id, db.jobs[id].attempts + 1);
         k !in db.attempts && k in db'.attempts && OpenedRow(db'.attempts[k], worker, tokens[id], db.now))
  }

  /**
   Which rows: at most `limit`, none of them locked, each PENDING and due or RUNNING with its lease run out, and
   with attempts left; and a row of that kind is left out only if the claim is full of rows that are due no later
   and, if due at the same instant, were created no later.
   */
  predicate TakenInOrder(db: Db, taken: set<Uuid>, limit: nat, locked: set<Uuid>) {
    && |taken| <= limit
    && (forall id :: id in taken ==> id in db.jobs && id !in locked)
    && forall id :: id in db.jobs && id !in locked ==>
         var j := db.jobs[id];
         var mayTake := j.attempts < j.maxAttempts && ((j.status.Pending? && j.nextAttemptAt <= db.now) || LeaseRanOut(j, db.now));
         if id in taken then mayTake
         else mayTake ==> |taken| == limit && forall x :: x in taken && x in db.jobs ==>
           || db.jobs[x].nextAttemptAt < j.nextAttemptAt
           || (db.jobs[x].nextAttemptAt == j.nextAttemptAt && db.jobs[x].createdAt <= j.createdAt)
  }

  lemma ClaimedJobColumns(db: Db, tokens: map<Uuid, Token>, worker: nat, lease: nat, locked: set<Uuid>)
    requires Enabled(db, Claim(tokens, worker, lease, locked))
    ensures JobColumns(db, tokens, lease, locked, ClaimTx(db, tokens, worker, lease, locked))
  {
    ClaimedJobs(db, tokens, worker, lease, locked);
    RowsInColumns(db, tokens, lease, locked, ClaimTx(db, tokens, worker, lease, locked));
  }

  lemma RowsInColumns(db: Db, tokens: map<Uuid, Token>, lease: nat, locked: set<Uuid>, db': Db)
    requires JobsClaimed(db, tokens, lease, locked, db')
    requires forall id :: id in tokens ==> id in db.jobs && Claimable(db.jobs[id], db.now)
    ensures JobColumns(db, tokens, lease, locked, db')
  {
  }

  lemma ClaimedAttemptColumns(db: Db, tokens: map<Uuid, Token>, worker: nat, lease: nat, locked: set<Uuid>)
    requires Numbered(db) && Enabled(db, Claim(tokens, worker, lease, locked))
    ensures AttemptColumns(db, tokens, worker, ClaimTx(db, tokens, worker, lease, locked))
  {
    ClaimedAttempts(db, tokens, worker, lease, locked);
    LogInColumns(db, tokens, worker, ClaimTx(db, tokens, worker, lease, locked));
  }

  lemma LogInColumns(db: Db, tokens: map<Uuid, Token>, worker: nat, db': Db)
    requires AttemptsClaimed(db, tokens, worker, db') && tokens.Keys <= db.jobs.Keys
    ensures AttemptColumns(db, tokens, worker, db')
  {
    forall id | id in tokens ensures IsNewAttempt(db, AttemptId(id, db.jobs[id].attempts + 1), tokens) {
    }
  }

  lemma SelectedInOrder(db: Db, limit: nat, taken: set<Uuid>, locked: set<Uuid>)
    requires Selected(db, limit, taken, locked)
    ensures TakenInOrder(db, taken, limit, locked)
  {
    forall id | id in db.jobs && id !in locked && id !in taken && Claimable(db.jobs[id], db.now)
      ensures |taken| == limit && forall x :: x in taken ==> Precedes(db.jobs[x], db.jobs[id])
    {
      LeftBehind(db, limit, taken, locked, id);
    }
  }
}
