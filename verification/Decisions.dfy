/**
 What a worker's result means for its job, in columns and status codes: which answers end the job, which earn
 another attempt, when that attempt is due, and which reason a dead job carries.
 */
module Decisions {
  import opened Core
  import opened Validation
  import opened Failure
  import opened Queue
  import opened Backoff
  import opened Effects
  import opened Protocol
  import opened ExactlyOnce
  import Charges

  /** How an answer with this status is read: 2xx is a charge; 408, 429 and 5xx are temporary; all else is final. */
  predicate AnswerMeans(r: ChargeResult, status: nat) {
    if 200 <= status <= 299 then r == Charged
    else if status == 408 || status == 429 || 500 <= status <= 599 then r == Failed(Transient, DownstreamRejected)
    else r == Failed(Permanent, DownstreamRejected)
  }

  lemma StatusIsRead(status: nat)
    ensures AnswerMeans(ResultOf(status), status)
  {
  }

  /** With attempts left the job waits out the delay; else it is dead of its budget. */
  predicate RetriesOrDies(db: Db, db': Db, id: Uuid, token: Token, attemptsLeft: bool, delay: nat, code: ErrorCode) {
    if attemptsLeft then BecomesPending(db, db', id, token, delay, code)
    else BecomesDead(db, db', id, token, RetryBudgetExhausted)
  }

  /** What becomes of a job for each kind of result. */
  predicate ActsOn(db: Db, db': Db, id: Uuid, token: Token, r: ChargeResult, attemptsLeft: bool, delay: nat) {
    match r
    case Charged => BecomesSucceeded(db, db', id, token)
    case Failed(Permanent, code) => BecomesDead(db, db', id, token, code)
    case Failed(_, code) => RetriesOrDies(db, db', id, token, attemptsLeft, delay, code)
  }

  /** Finalizing with the verdict of a result, in columns. */
  lemma VerdictEffect(db: Db, id: Uuid, token: Token, r: ChargeResult, attempt: int, maxAttempts: int, delay: nat)
    requires Held(db, id, token)
    ensures ActsOn(db, FinalizeTx(db, id, token, VerdictFor(r, attempt, maxAttempts, delay)), id, token, r, attempt < maxAttempts, delay)
  {
    SuccessEffect(db, id, token);
    if r.Failed? {
      RetryEffect(db, id, token, delay, r.code);
      BuryEffect(db, id, token, r.code);
      BuryEffect(db, id, token, RetryBudgetExhausted);
    }
  }

  /** The failpoint in the middle of finalizing acts as if no attempt were left. */
  lemma FailpointEffect(db: Db, id: Uuid, token: Token, r: ChargeResult)
    requires Held(db, id, token)
    ensures ActsOn(db, FinalizeTx(db, id, token, FailpointVerdict(r)), id, token, r, false, 0)
  {
    SuccessEffect(db, id, token);
    if r.Failed? {
      BuryEffect(db, id, token, r.code);
      BuryEffect(db, id, token, RetryBudgetExhausted);
    }
  }

  function AttemptsLeft(db: Db, id: Uuid): bool
    requires id in db.jobs
  {
    db.jobs[id].attempts < db.jobs[id].maxAttempts
  }

  /**
   A worker that still holds its job finalizes it by the attempts the job row has left at that moment; one that lost
   it changes nothing.
   */
  lemma FinishDecides(s: Sys, k: AttemptId, delay: nat)
    requires SysInv(s) && Possible(s, Finish(k, delay))
    ensures var db' := Next(s, Finish(k, delay)).db; var token := s.tasks[k].token;
      if Held(s.db, k.job, token)
      then ActsOn(s.db, db', k.job, token, s.tasks[k].phase.result, AttemptsLeft(s.db, k.job), delay)
      else db' == s.db
  {
    var task := s.tasks[k];
    assert TaskAgrees(s.db, k, task);
    if Held(s.db, k.job, task.token) {
      VerdictEffect(s.db, k.job, task.token, task.phase.result, k.number, task.maxAttempts, delay);
    }
  }

  lemma FailpointDecides(s: Sys, k: AttemptId)
    requires SysInv(s) && Possible(s, FinishThenCrash(k))
    ensures var db' := Next(s, FinishThenCrash(k)).db; var token := s.tasks[k].token;
      if Held(s.db, k.job, token) then ActsOn(s.db, db', k.job, token, s.tasks[k].phase.result, false, 0) else db' == s.db
  {
    if Held(s.db, k.job, s.tasks[k].token) {
      FailpointEffect(s.db, k.job, s.tasks[k].token, s.tasks[k].phase.result);
    }
  }

  /** From an answer to the job row: the status code alone decides, with the attempts left and the delay. */
  predicate ActsOnStatus(db: Db, db': Db, id: Uuid, token: Token, status: nat, attemptsLeft: bool, delay: nat) {
    if 200 <= status <= 299 then BecomesSucceeded(db, db', id, token)
    else if status == 408 || status == 429 || 500 <= status <= 599
    then RetriesOrDies(db, db', id, token, attemptsLeft, delay, DownstreamRejected)
    else BecomesDead(db, db', id, token, DownstreamRejected)
  }

  lemma StatusDecides(s: Sys, k: AttemptId, delay: nat)
    requires SysInv(s) && Possible(s, Respond(k)) && k.number >= 0 && delay <= CapMillis(s.policy, k.number)
    requires Held(s.db, k.job, s.tasks[k].token)
    ensures Possible(Next(s, Respond(k)), Finish(k, delay))
    ensures ActsOnStatus(s.db, Next(Next(s, Respond(k)), Finish(k, delay)).db, k.job, s.tasks[k].token,
                         Charges.StatusOf(s.service.calls[s.tasks[k].phase.call].stage.reply), AttemptsLeft(s.db, k.job), delay)
  {
    ActKeepsSys(s, Respond(k));
    StatusIsRead(Charges.StatusOf(s.service.calls[s.tasks[k].phase.call].stage.reply));
    FinishDecides(Next(s, Respond(k)), k, delay);
  }

  /** No answer at all: another attempt if one is left, and the job says that the service was unreachable. */
  lemma LossDecides(s: Sys, k: AttemptId, delay: nat)
    requires SysInv(s) && Possible(s, LoseResponse(k)) && k.number >= 0 && delay <= CapMillis(s.policy, k.number)
    requires Held(s.db, k.job, s.tasks[k].token)
    ensures Possible(Next(s, LoseResponse(k)), Finish(k, delay))
    ensures RetriesOrDies(s.db, Next(Next(s, LoseResponse(k)), Finish(k, delay)).db, k.job, s.tasks[k].token,
                          AttemptsLeft(s.db, k.job), delay, DownstreamUnreachable)
  {
    ActKeepsSys(s, LoseResponse(k));
    FinishDecides(Next(s, LoseResponse(k)), k, delay);
  }

  /** A payload that does not pass is final whatever attempts are left, and nothing is sent. */
  lemma RefusalDecides(s: Sys, k: AttemptId, call: nat, charge: Uuid)
    requires SysInv(s) && Possible(s, Start(k, call, charge)) && k.number >= 0
    requires Held(s.db, k.job, s.tasks[k].token) && ParseChargePayload(s.db.jobs[k.job].payload).Err?
    ensures var refused := Next(s, Start(k, call, charge));
      && refused.service == s.service && Possible(refused, Finish(k, 0))
      && BecomesDead(s.db, Next(refused, Finish(k, 0)).db, k.job, s.tasks[k].token, InvalidPayload)
  {
    assert TaskAgrees(s.db, k, s.tasks[k]);
    ActKeepsSys(s, Start(k, call, charge));
    FinishDecides(Next(s, Start(k, call, charge)), k, 0);
  }
}
