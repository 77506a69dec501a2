/**
 The whole system: the queue database, the charge service and one task per claimed attempt, stepping
 in any order. A task may crash or stall at any point and act arbitrarily late with its old token, a
 response may be lost, and a request may still be served long after its worker has given up on it.
 */
module Protocol {
  import opened Core
  import opened Validation
  import opened Failure
  import opened Idempotency
  import opened Queue
  import opened Backoff
  import Charges

  datatype ChargeResult = Charged | Failed(kind: FailureClass, code: ErrorCode)

  /** Where a worker is with its attempt: `Known` is the instant between the charge call and the finalizer. */
  datatype Phase = Claimed | Waiting(call: nat) | Known(result: ChargeResult) | Finished | Crashed

  /** What the worker holds: the snapshot returned by its claim, and its place in the code. */
  datatype Task = Task(token: Token, maxAttempts: int, payload: Json, phase: Phase)

  datatype Sys = Sys(db: Db, service: Charges.Service, tasks: map<AttemptId, Task>, policy: RetryPolicy)

  datatype Act =
    | Database(e: Event)
    | Start(k: AttemptId, call: nat, charge: Uuid)
    | Serve(m: Charges.Move)
    | Respond(k: AttemptId)
    | LoseResponse(k: AttemptId)
    | Finish(k: AttemptId, delay: nat)
    | FinishThenCrash(k: AttemptId)
    | Crash(k: AttemptId)

  // --- The worker's decisions ---

  function ResultOf(status: nat): ChargeResult {
    if IsSuccess(status) then Charged else Failed(ClassifyHttpStatus(status), DownstreamRejected)
  }

  /** Which finalizer runs: success, another attempt while the snapshot has budget, or the dead-letter state. */
  function VerdictFor(r: ChargeResult, attempt: int, maxAttempts: int, delay: nat): Verdict {
    match r
    case Charged => Success
    case Failed(kind, code) =>
      if IsRetryable(kind) && attempt < maxAttempts then Retry(delay, code)
      else Bury(if IsRetryable(kind) then RetryBudgetExhausted else code)
  }

  /** The failpoint in the middle of finalizing buries every failure, whatever budget is left. */
  function FailpointVerdict(r: ChargeResult): Verdict {
    match r
    case Charged => Success
    case Failed(kind, code) => Bury(if IsRetryable(kind) then RetryBudgetExhausted else code)
  }

  // --- Steps ---

  function NewTasks(db: Db, db': Db, tokens: map<Uuid, Token>): map<AttemptId, Task>
    requires tokens.Keys <= db.jobs.Keys && tokens.Keys <= db'.jobs.Keys
  {
    map k | k in NewAttemptIds(db'.jobs, tokens.Keys) ::
      Task(tokens[k.job], db'.jobs[k.job].maxAttempts, db'.jobs[k.job].payload, Claimed)
  }

  function SetPhase(s: Sys, k: AttemptId, phase: Phase): Sys
    requires k in s.tasks
  {
    s.(tasks := s.tasks[k := s.tasks[k].(phase := phase)])
  }

  function ChargeRequest(k: AttemptId, call: nat, charge: Uuid, payload: ChargePayload): Charges.Move {
    Charges.Arrive(call, charge, Some(ChargeIdempotencyKey(k.job)), RequestBody(payload))
  }

  /** A retry delay is drawn from the attempt's cap; finalizers are only ever issued by tasks. */
  ghost predicate Possible(s: Sys, a: Act) {
    match a
    case Database(e) => Enabled(s.db, e) && !e.Finalize?
    case Start(k, call, charge) =>
      && k in s.tasks && s.tasks[k].phase.Claimed?
      && var parsed := ParseChargePayload(s.tasks[k].payload);
      parsed.Ok? ==> Charges.CanMove(s.service, ChargeRequest(k, call, charge, parsed.value))
    case Serve(m) => !m.Arrive? && Charges.CanMove(s.service, m)
    case Respond(k) =>
      && k in s.tasks && s.tasks[k].phase.Waiting? && s.tasks[k].phase.call in s.service.calls
      && s.service.calls[s.tasks[k].phase.call].stage.Answered?
    case LoseResponse(k) => k in s.tasks && s.tasks[k].phase.Waiting?
    case Finish(k, delay) =>
      k in s.tasks && s.tasks[k].phase.Known? && k.number >= 0 && delay <= CapMillis(s.policy, k.number)
    case FinishThenCrash(k) => k in s.tasks && s.tasks[k].phase.Known?
    case Crash(k) => k in s.tasks
  }

  ghost function Next(s: Sys, a: Act): Sys
    requires Possible(s, a)
  {
    match a
    case Database(e) =>
      var db' := Apply(s.db, e);
      s.(db := db', tasks := if e.Claim? then s.tasks + NewTasks(s.db, db', e.tokens) else s.tasks)
    case Start(k, call, charge) =>
      var parsed := ParseChargePayload(s.tasks[k].payload);
      if parsed.Err? then SetPhase(s, k, Known(Failed(Permanent, InvalidPayload)))
      else
        SetPhase(s.(service := Charges.Moved(s.service, ChargeRequest(k, call, charge, parsed.value))), k, Waiting(call))
    case Serve(m) => s.(service := Charges.Moved(s.service, m))
    case Respond(k) =>
      SetPhase(s, k, Known(ResultOf(Charges.StatusOf(s.service.calls[s.tasks[k].phase.call].stage.reply))))
    case LoseResponse(k) => SetPhase(s, k, Known(Failed(Ambiguous, DownstreamUnreachable)))
    case Finish(k, delay) =>
      var verdict := VerdictFor(s.tasks[k].phase.result, k.number, s.tasks[k].maxAttempts, delay);
      SetPhase(s.(db := FinalizeTx(s.db, k.job, s.tasks[k].token, verdict)), k, Finished)
    case FinishThenCrash(k) =>
      SetPhase(s.(db := FinalizeTx(s.db, k.job, s.tasks[k].token, FailpointVerdict(s.tasks[k].phase.result))), k, Crashed)
    case Crash(k) => SetPhase(s, k, Crashed)
  }

  /** What a step does to the database, as at most one event of the open queue machine. */
  function DbEvents(s: Sys, a: Act): seq<Event> {
    match a
    case Database(e) => [e]
    case Finish(k, delay) =>
      if k in s.tasks && s.tasks[k].phase.Known?
      then [Finalize(k.job, s.tasks[k].token, VerdictFor(s.tasks[k].phase.result, k.number, s.tasks[k].maxAttempts, delay))]
      else []
    case FinishThenCrash(k) =>
      if k in s.tasks && s.tasks[k].phase.Known?
      then [Finalize(k.job, s.tasks[k].token, FailpointVerdict(s.tasks[k].phase.result))]
      else []
    case _ => []
  }

  lemma StepIsDbRun(s: Sys, a: Act)
    requires Possible(s, a)
    ensures Legal(s.db, DbEvents(s, a)) && Exec(s.db, DbEvents(s, a)) == Next(s, a).db
  {
    if DbEvents(s, a) != [] {
      OneEvent(s.db, DbEvents(s, a)[0]);
    }
  }

  // --- Runs ---

  function Initial(policy: RetryPolicy): Sys {
    Sys(EMPTY, Charges.Service([], map[]), map[], policy)
  }

  ghost predicate Schedulable(s: Sys, acts: seq<Act>)
    decreases |acts|
  {
    acts == [] || (Possible(s, acts[0]) && Schedulable(Next(s, acts[0]), acts[1..]))
  }

  ghost function Final(s: Sys, acts: seq<Act>): Sys
    requires Schedulable(s, acts)
    decreases |acts|
  {
    if acts == [] then s else Final(Next(s, acts[0]), acts[1..])
  }

  lemma OneAct(s: Sys, a: Act)
    requires Possible(s, a)
    ensures Schedulable(s, [a]) && Final(s, [a]) == Next(s, a)
  {
    assert [a][1..] == [];
  }

  lemma {:induction false} SchedulesJoin(s: Sys, first: seq<Act>, second: seq<Act>)
    requires Schedulable(s, first) && Schedulable(Final(s, first), second)
    ensures Schedulable(s, first + second) && Final(s, first + second) == Final(Final(s, first), second)
    decreases |first|
  {
    if first == [] {
      assert first + second == second;
    } else {
      SchedulesJoin(Next(s, first[0]), first[1..], second);
      assert (first + second)[1..] == first[1..] + second;
    }
  }

  /** A schedule can be followed by one more step. */
  lemma Then(s: Sys, acts: seq<Act>, a: Act) returns (all: seq<Act>)
    requires Schedulable(s, acts) && Possible(Final(s, acts), a)
    ensures all == acts + [a] && Schedulable(s, all) && Final(s, all) == Next(Final(s, acts), a)
  {
    OneAct(Final(s, acts), a);
    SchedulesJoin(s, acts, [a]);
    all := acts + [a];
  }
}
