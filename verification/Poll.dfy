/**
 The poll loop of one worker with its semaphore. Tasks of a batch take and return permits in any order;
 the loop claims, waits for the whole batch, and notices a shutdown only where it selects on it.
 */
module Poll {
  import opened Core

  const CLAIM_BATCH_MAX: nat := 10

  /** At the top of the loop; in a sleep that also listens for shutdown; in a batch; draining one; returned. */
  datatype Place = Top | Sleeping | InBatch | Draining | Returned

  /** Permits available, tasks waiting for one and tasks holding one. */
  datatype State = State(concurrency: nat, available: nat, waiting: nat, running: nat, place: Place, shutdownFired: bool)

  datatype Step =
    | FireShutdown
    | NoCapacity
    | Claim(returned: nat)
    | WakeUp
    | Acquire
    | Complete
    | BatchDone
    | TakeShutdown
    | GraceElapsed

  function Start(concurrency: nat): State {
    State(concurrency, concurrency, 0, 0, Top, false)
  }

  function BatchSize(s: State): nat {
    Min(s.available, CLAIM_BATCH_MAX)
  }

  predicate Possible(s: State, step: Step) {
    match step
    case FireShutdown => true
    case NoCapacity => s.place.Top? && BatchSize(s) == 0
    case Claim(returned) => s.place.Top? && BatchSize(s) > 0 && returned <= BatchSize(s)
    case WakeUp => s.place.Sleeping?
    case Acquire => s.waiting > 0 && s.available > 0
    case Complete => s.running > 0
    case BatchDone => (s.place.InBatch? || s.place.Draining?) && s.waiting == 0 && s.running == 0
    case TakeShutdown => s.shutdownFired && (s.place.Sleeping? || s.place.InBatch?)
    case GraceElapsed => s.place.Draining?
  }

  function Next(s: State, step: Step): State
    requires Possible(s, step)
  {
    match step
    case FireShutdown => s.(shutdownFired := true)
    case NoCapacity => s.(place := Sleeping)
    case Claim(returned) =>
      if returned == 0 then s.(place := Sleeping) else s.(place := InBatch, waiting := s.waiting + returned)
    case WakeUp => s.(place := Top)
    case Acquire => s.(waiting := s.waiting - 1, running := s.running + 1, available := s.available - 1)
    case Complete => s.(running := s.running - 1, available := s.available + 1)
    case BatchDone => s.(place := if s.place.InBatch? then Top else Returned)
    case TakeShutdown => s.(place := if s.place.InBatch? then Draining else Returned)
    case GraceElapsed => s.(place := Returned)
  }

  predicate CanRun(s: State, steps: seq<Step>)
    decreases |steps|
  {
    steps == [] || (Possible(s, steps[0]) && CanRun(Next(s, steps[0]), steps[1..]))
  }

  function Ran(s: State, steps: seq<Step>): State
    requires CanRun(s, steps)
    decreases |steps|
  {
    if steps == [] then s else Ran(Next(s, steps[0]), steps[1..])
  }

  predicate Inv(s: State) {
    && (s.place.Draining? || s.place.Returned? ==> s.shutdownFired)
    && s.available + s.running == s.concurrency
    && s.waiting + s.running <= Min(s.concurrency, CLAIM_BATCH_MAX)
    && (s.place.Top? || s.place.Sleeping? ==> s.waiting == 0 && s.running == 0)
  }

  lemma {:induction false} RunKeepsInv(s: State, steps: seq<Step>)
    requires Inv(s) && CanRun(s, steps)
    ensures Inv(Ran(s, steps)) && Ran(s, steps).concurrency == s.concurrency
    decreases |steps|
  {
    if steps != [] {
      RunKeepsInv(Next(s, steps[0]), steps[1..]);
    }
  }

  /**
   Under every schedule: permits are conserved, no more than min(concurrency, 10) claimed jobs are in
   flight, a claimed job always finds a permit free, and a claim is always made at full capacity.
   */
  lemma BoundedConcurrency(concurrency: nat, steps: seq<Step>)
    requires concurrency >= 1 && CanRun(Start(concurrency), steps)
    ensures var s := Ran(Start(concurrency), steps);
      && s.available + s.running == concurrency
      && s.waiting + s.running <= Min(concurrency, 10)
      && s.waiting <= s.available
      && (s.place.Top? ==> s.available == concurrency && BatchSize(s) == Min(concurrency, 10))
      && !Possible(s, NoCapacity)
  {
    RunKeepsInv(Start(concurrency), steps);
  }

  function Claims(steps: seq<Step>): nat {
    if steps == [] then 0 else (if steps[0].Claim? then 1 else 0) + Claims(steps[1..])
  }

  /** Once the loop has taken a shutdown branch it never claims again, whatever its batch does. */
  lemma {:induction false} NoClaimAfterShutdownTaken(s: State, steps: seq<Step>)
    requires (s.place.Draining? || s.place.Returned?) && CanRun(s, steps)
    ensures Claims(steps) == 0
    ensures Ran(s, steps).place.Draining? || Ran(s, steps).place.Returned?
    decreases |steps|
  {
    if steps != [] {
      NoClaimAfterShutdownTaken(Next(s, steps[0]), steps[1..]);
    }
  }

  /** The loop has not taken a shutdown branch. */
  predicate MayStillClaim(s: State) {
    s.place.Top? || s.place.Sleeping? || s.place.InBatch?
  }

  /**
   Firing alone does not stop claims: from every state in which no shutdown branch was taken, a schedule
   exists that claims after the shutdown fired; and from every other state none does.
   */
  lemma ClaimAfterShutdownFired(s: State) returns (steps: seq<Step>)
    requires Inv(s) && s.concurrency >= 1 && s.shutdownFired && MayStillClaim(s)
    ensures CanRun(s, steps) && Claims(steps) == 1
    decreases s.waiting, s.running, if s.place.Top? then 0 else 1
  {
    var first := if s.waiting > 0 then Acquire else if s.running > 0 then Complete
                 else if s.place.InBatch? then BatchDone else if s.place.Sleeping? then WakeUp else Claim(0);
    if first.Claim? {
      steps := [first];
      assert steps[1..] == [];
    } else {
      var rest := ClaimAfterShutdownFired(Next(s, first));
      steps := [first] + rest;
      assert steps[1..] == rest;
    }
  }

  /**
   Wherever the loop waits it hears a fired shutdown: idle it returns at once, with a batch in flight it drains; and
   every step it takes from the top brings it to such a wait, idle exactly if nothing was claimed.
   */
  lemma WaitsHearShutdown(s: State, step: Step)
    requires Inv(s) && s.place.Top? && Possible(s, step)
    requires step.Claim? || step.NoCapacity?
    ensures var waiting := Next(s, step);
      && Possible(waiting.(shutdownFired := true), TakeShutdown)
      && Next(waiting.(shutdownFired := true), TakeShutdown).place ==
         (if step.Claim? && step.returned > 0 then Draining else Returned)
  {
  }

  /** The loop returns only after a shutdown fired. */
  lemma ShutdownIsTheOnlyEnd(concurrency: nat, steps: seq<Step>)
    requires concurrency >= 1 && CanRun(Start(concurrency), steps) && Ran(Start(concurrency), steps).place.Returned?
    ensures Ran(Start(concurrency), steps).shutdownFired
  {
    RunKeepsInv(Start(concurrency), steps);
  }

  /** A draining loop can return at once when the grace period ends, or when its batch is done. */
  lemma DrainEnds(s: State)
    requires s.place.Draining?
    ensures Possible(s, GraceElapsed) && Next(s, GraceElapsed) == s.(place := Returned)
    ensures s.waiting == 0 && s.running == 0 ==> Possible(s, BatchDone) && Next(s, BatchDone) == s.(place := Returned)
  {
  }
}
