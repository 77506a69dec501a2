/**
 A claim as its separate statements, all at the time frozen when it began, with any other
 transactions and any other claims' statements in between. Each statement's writes are visible to
 all at once, where the database hides them until the claim commits and locks the rows: the model
 over-approximates, with interleavings in it that the locks would delay.

 Three properties, each with its exact condition: that every running claim's expired jobs are closed
 (SplitInv) holds as long as steps are timely, that is, write no lease that another running claim already
 counts as expired; the audit invariant itself holds as long as steps are clean, that is, neither lease nor
 bury a job that has an open attempt; and a job never has two open attempts as long as no attempt is opened
 beside an open one. Timely runs are clean.
 */
module SplitClaim {
  import opened Core
  import opened Validation
  import opened Queue
  import opened Audit

  /** A claim that has run statement 1 at its frozen time, and perhaps statement 2. */
  datatype Stage = Stage(at: Time, killed: bool)

  datatype State = State(db: Db, running: map<nat, Stage>)

  datatype Step =
    | Whole(e: Event)
    | CloseStatement(c: nat)
    | KillStatement(c: nat, locked: set<Uuid>)
    | LeaseStatement(c: nat, tokens: map<Uuid, Token>, worker: nat, lease: nat)

  ghost predicate Possible(s: State, step: Step) {
    match step
    case Whole(e) => Enabled(s.db, e) && (e.Claim? || e.Renew? ==> e.lease >= 1)
    case CloseStatement(c) => c !in s.running
    case KillStatement(c, _) => c in s.running && !s.running[c].killed
    case LeaseStatement(c, tokens, worker, lease) =>
      c in s.running && s.running[c].killed && CanLease(s.db, s.running[c].at, tokens)
  }

  ghost function Next(s: State, step: Step): State
    requires Possible(s, step)
  {
    match step
    case Whole(e) => s.(db := Apply(s.db, e))
    case CloseStatement(c) =>
      State(CloseExpired(s.db, s.db.now), s.running[c := Stage(s.db.now, false)])
    case KillStatement(c, locked) =>
      var at := s.running[c].at;
      State(KillExhausted(s.db, at, locked), s.running[c := Stage(at, true)])
    case LeaseStatement(c, tokens, worker, lease) =>
      State(LeaseAndRecord(s.db, s.running[c].at, tokens, worker, lease), s.running - {c})
  }

  /** Every running claim still has all attempts closed that are expired at its frozen time. */
  ghost predicate SplitInv(s: State) {
    && Inv(s.db)
    && forall c :: c in s.running ==> s.running[c].at <= s.db.now && NoDangling(s.db, s.running[c].at)
  }

  /** The leases a split claim writes outlast the frozen time of every other running claim. */
  predicate Timely(s: State, step: Step) {
    step.LeaseStatement? && step.c in s.running && step.tokens != map[] ==>
      forall c :: c in s.running && c != step.c ==> s.running[c].at < s.running[step.c].at + step.lease
  }

  /** A transaction at a time no earlier than t leaves nothing dangling at t, and adds no job to those expired at t. */
  lemma WholeKeepsClosed(db: Db, e: Event, t: Time)
    requires Inv(db) && Enabled(db, e) && t <= db.now && NoDangling(db, t)
    requires e.Claim? || e.Renew? ==> e.lease >= 1
    ensures NoDangling(Apply(db, e), t)
    ensures forall id :: id in Apply(db, e).jobs && Expired(Apply(db, e).jobs[id], t) ==>
      id in db.jobs && Expired(db.jobs[id], t)
  {
    match e
    case Claim(tokens, worker, lease, locked) =>
      ClaimedJobs(db, tokens, worker, lease, locked);
      ClaimedAttempts(db, tokens, worker, lease, locked);
      ClaimKeepsClosed(db, tokens, worker, lease, locked, t, ClaimTx(db, tokens, worker, lease, locked));
    case Finalize(id, token, v) =>
      if Held(db, id, token) {
        FinalizePointwise(db, id, token, v);
      }
    case Tick(_) =>
    case Insert(id, _, _) =>
    case Renew(_, _, _) =>
    case Replay(_, _) =>
  }

  lemma ClaimKeepsClosed(db: Db, tokens: map<Uuid, Token>, worker: nat, lease: nat, locked: set<Uuid>, t: Time, db': Db)
    requires Inv(db) && t <= db.now && NoDangling(db, t) && lease >= 1
    requires JobsClaimed(db, tokens, lease, locked, db') && AttemptsClaimed(db, tokens, worker, db')
    ensures NoDangling(db', t)
    ensures forall id :: id in db'.jobs && Expired(db'.jobs[id], t) ==> id in db.jobs && Expired(db.jobs[id], t)
  {
    forall k | k in db'.attempts ensures !Dangling(db', k, t) {
      if k in db.attempts {
        assert !Dangling(db, k, t);
      }
    }
  }

  /** A lease statement at `at` leaves nothing dangling at another frozen time exactly when its leases outlast it. */
  lemma LeaseKeepsClosedExactly(db: Db, at: Time, tokens: map<Uuid, Token>, worker: nat, lease: nat, t: Time)
    requires Inv(db) && CanLease(db, at, tokens) && NoDangling(db, t)
    ensures NoDangling(LeaseAndRecord(db, at, tokens, worker, lease), t) <==> tokens == map[] || t < at + lease
  {
    var db' := LeaseAndRecord(db, at, tokens, worker, lease);
    LeaseAddsRows(db, at, tokens, worker, lease);
    assert db'.jobs == LeaseDue(db, at, tokens, lease).jobs;
    if tokens == map[] || t < at + lease {
      forall k | k in db'.attempts ensures !Dangling(db', k, t) {
        if k in db.attempts {
          assert !Dangling(db, k, t);
        }
      }
    } else {
      var id :| id in tokens;
      var k := AttemptId(id, db.jobs[id].attempts + 1);
      assert IsNewAttempt(db, k, tokens) && k in db'.attempts;
      assert Dangling(db', k, t);
    }
  }

  /** Statements 1 and 2 at time t close or bury rows, and so leave nothing new dangling at any time t'. */
  lemma EarlyStatementsKeepClosed(db: Db, t: Time, locked: set<Uuid>, t': Time)
    requires Inv(db) && NoDangling(db, t')
    ensures NoDangling(CloseExpired(db, t), t') && NoDangling(KillExhausted(db, t, locked), t')
  {
    forall k | k in db.attempts
      ensures !Dangling(CloseExpired(db, t), k, t') && !Dangling(KillExhausted(db, t, locked), k, t')
    {
      assert !Dangling(db, k, t');
    }
  }

  lemma ExactAfterLease(s: State, step: Step, db': Db)
    requires SplitInv(s) && step.LeaseStatement? && step.c in s.running
    requires Inv(db') && db'.now == s.db.now
    requires forall c :: c in s.running ==>
      (NoDangling(db', s.running[c].at) <==> step.tokens == map[] || s.running[c].at < s.running[step.c].at + step.lease)
    ensures SplitInv(State(db', s.running - {step.c})) <==> Timely(s, step)
  {
    var s' := State(db', s.running - {step.c});
    assert forall c :: c in s'.running <==> c in s.running && c != step.c;
    if !Timely(s, step) {
      var c :| c in s.running && c != step.c && !(s.running[c].at < s.running[step.c].at + step.lease);
      assert c in s'.running && !NoDangling(db', s'.running[c].at);
    }
  }

  lemma LeaseStatementExact(s: State, step: Step)
    requires SplitInv(s) && Possible(s, step) && step.LeaseStatement?
    ensures SplitInv(Next(s, step)) <==> Timely(s, step)
  {
    var at := s.running[step.c].at;
    LeaseKeepsInv(s.db, at, step.tokens, step.worker, step.lease);
    forall c | c in s.running {
      LeaseKeepsClosedExactly(s.db, at, step.tokens, step.worker, step.lease, s.running[c].at);
    }
    ExactAfterLease(s, step, LeaseAndRecord(s.db, at, step.tokens, step.worker, step.lease));
  }

  lemma WholeKeeps(s: State, e: Event)
    requires SplitInv(s) && Possible(s, Whole(e))
    ensures SplitInv(Next(s, Whole(e)))
  {
    StepKeepsInv(s.db, e);
    forall c | c in s.running
      ensures s.running[c].at <= Apply(s.db, e).now && NoDangling(Apply(s.db, e), s.running[c].at)
    {
      WholeKeepsClosed(s.db, e, s.running[c].at);
    }
  }

  /** One step keeps the invariant exactly when it is timely. */
  lemma StepExact(s: State, step: Step)
    requires SplitInv(s) && Possible(s, step)
    ensures SplitInv(Next(s, step)) <==> Timely(s, step)
  {
    match step
    case Whole(e) => WholeKeeps(s, e);
    case LeaseStatement(_, _, _, _) => LeaseStatementExact(s, step);
    case CloseStatement(_) =>
      CloseKeepsInv(s.db, s.db.now);
      forall c | c in s.running {
        EarlyStatementsKeepClosed(s.db, s.db.now, {}, s.running[c].at);
      }
    case KillStatement(c, locked) =>
      KillKeepsInv(s.db, s.running[c].at, locked);
      forall c' | c' in s.running {
        EarlyStatementsKeepClosed(s.db, s.running[c].at, locked, s.running[c'].at);
      }
  }

  // --- Runs ---

  ghost predicate SplitRun(s: State, steps: seq<Step>)
    decreases |steps|
  {
    steps == [] || (Possible(s, steps[0]) && SplitRun(Next(s, steps[0]), steps[1..]))
  }

  ghost function SplitExec(s: State, steps: seq<Step>): State
    requires SplitRun(s, steps)
    decreases |steps|
  {
    if steps == [] then s else SplitExec(Next(s, steps[0]), steps[1..])
  }

  ghost predicate AlwaysSound(s: State, steps: seq<Step>)
    requires SplitRun(s, steps)
    decreases |steps|
  {
    SplitInv(s) && (steps == [] || AlwaysSound(Next(s, steps[0]), steps[1..]))
  }

  ghost predicate AlwaysTimely(s: State, steps: seq<Step>)
    requires SplitRun(s, steps)
    decreases |steps|
  {
    steps == [] || (Timely(s, steps[0]) && AlwaysTimely(Next(s, steps[0]), steps[1..]))
  }

  /** The invariant holds in every state of a run of interleaved statements, if and only if every step of it is timely. */
  lemma {:induction false} SoundExactly(s: State, steps: seq<Step>)
    requires SplitInv(s) && SplitRun(s, steps)
    ensures AlwaysSound(s, steps) <==> AlwaysTimely(s, steps)
    ensures AlwaysTimely(s, steps) ==> SplitInv(SplitExec(s, steps))
    decreases |steps|
  {
    if steps != [] {
      StepExact(s, steps[0]);
      if Timely(s, steps[0]) {
        SoundExactly(Next(s, steps[0]), steps[1..]);
      }
    }
  }

  /** Two open attempts of one job never coexist. */
  lemma OneOpenAttempt(s: State, steps: seq<Step>, k: AttemptId, k': AttemptId)
    requires SplitInv(s) && SplitRun(s, steps) && AlwaysTimely(s, steps)
    requires var db := SplitExec(s, steps).db;
      k in db.attempts && k' in db.attempts && k.job == k'.job && db.attempts[k].outcome.None? && db.attempts[k'].outcome.None?
    ensures k == k'
  {
    SoundExactly(s, steps);
    var db := SplitExec(s, steps).db;
    assert Agrees(db.attempts[k], k.number, db.jobs[k.job]);
    assert Agrees(db.attempts[k'], k'.number, db.jobs[k.job]);
  }

  /** No claim stalls, between its first statement and its third, for as long as the lease it then writes. */
  ghost predicate NoClaimStalls(s: State, steps: seq<Step>)
    requires SplitRun(s, steps)
    decreases |steps|
  {
    steps == [] || (
      && (steps[0].LeaseStatement? ==> s.db.now < s.running[steps[0].c].at + steps[0].lease)
      && NoClaimStalls(Next(s, steps[0]), steps[1..]))
  }

  /** A condition each claim can see to alone: with no stalled claim, every interleaving is timely, and so sound. */
  lemma {:induction false} SplitClaimsAreSound(s: State, steps: seq<Step>)
    requires SplitInv(s) && SplitRun(s, steps) && NoClaimStalls(s, steps)
    ensures AlwaysTimely(s, steps) && SplitInv(SplitExec(s, steps))
    decreases |steps|
  {
    if steps != [] {
      StepExact(s, steps[0]);
      SplitClaimsAreSound(Next(s, steps[0]), steps[1..]);
    }
  }

  // --- The audit invariant, exactly ---

  predicate Open(db: Db, k: AttemptId) {
    k in db.attempts && db.attempts[k].outcome.None?
  }

  /** The statement takes no job with an open attempt, by leasing it or by burying it. */
  ghost predicate Clean(s: State, step: Step) {
    match step
    case LeaseStatement(_, tokens, _, _) => forall k :: Open(s.db, k) ==> k.job !in tokens
    case KillStatement(c, locked) =>
      forall k :: Open(s.db, k) && k.job in s.db.jobs && c in s.running ==>
        !(Exhausted(s.db.jobs[k.job], s.running[c].at) && k.job !in locked)
    case _ => true
  }

  lemma LeaseInvExactly(db: Db, at: Time, tokens: map<Uuid, Token>, worker: nat, lease: nat)
    requires Inv(db) && CanLease(db, at, tokens)
    ensures Inv(LeaseAndRecord(db, at, tokens, worker, lease)) <==> forall k :: Open(db, k) ==> k.job !in tokens
  {
    LeaseAddsRows(db, at, tokens, worker, lease);
    LeasedJobsPass(db, at, tokens, lease);
    RowsAddedExactly(db, at, tokens, worker, lease, LeaseDue(db, at, tokens, lease), LeaseAndRecord(db, at, tokens, worker, lease));
  }

  lemma RowsAddedExactly(db: Db, at: Time, tokens: map<Uuid, Token>, worker: nat, lease: nat, leased: Db, db': Db)
    requires Inv(db) && CanLease(db, at, tokens)
    requires leased == LeaseDue(db, at, tokens, lease) && Schema(leased) && Started(leased)
    requires db'.jobs == leased.jobs && db'.minted == leased.minted && RowsAdded(db, at, tokens, worker, db')
    ensures Inv(db') <==> forall k :: Open(db, k) ==> k.job !in tokens
  {
    if k :| Open(db, k) && k.job in tokens {
      assert k in db'.attempts && k.number != db'.jobs[k.job].attempts;
      assert !Agrees(db'.attempts[k], k.number, db'.jobs[k.job]);
    } else {
      AddedRowsKeepTokens(db, at, tokens, worker, db');
      forall k | k in db'.attempts && k.job in db'.jobs
        ensures Agrees(db'.attempts[k], k.number, db'.jobs[k.job])
      {
        if k in db.attempts {
          assert Agrees(db.attempts[k], k.number, db.jobs[k.job]);
        }
      }
    }
  }

  lemma KillInvExactly(db: Db, at: Time, locked: set<Uuid>)
    requires Inv(db)
    ensures Inv(KillExhausted(db, at, locked)) <==>
      forall k :: Open(db, k) && k.job in db.jobs ==> !(Exhausted(db.jobs[k.job], at) && k.job !in locked)
  {
    var db' := KillExhausted(db, at, locked);
    if k :| Open(db, k) && k.job in db.jobs && Exhausted(db.jobs[k.job], at) && k.job !in locked {
      assert !Agrees(db'.attempts[k], k.number, db'.jobs[k.job]);
    } else {
      forall k | k in db'.attempts && k.job in db'.jobs
        ensures Agrees(db'.attempts[k], k.number, db'.jobs[k.job])
      {
        assert Agrees(db.attempts[k], k.number, db.jobs[k.job]);
      }
    }
  }

  /** One step keeps the audit invariant exactly when it is clean. */
  lemma InvExact(s: State, step: Step)
    requires Inv(s.db) && Possible(s, step)
    ensures Inv(Next(s, step).db) <==> Clean(s, step)
  {
    match step
    case Whole(e) => StepKeepsInv(s.db, e);
    case CloseStatement(_) => CloseKeepsInv(s.db, s.db.now);
    case KillStatement(c, locked) => KillInvExactly(s.db, s.running[c].at, locked);
    case LeaseStatement(c, tokens, worker, lease) => LeaseInvExactly(s.db, s.running[c].at, tokens, worker, lease);
  }

  ghost predicate AlwaysInv(s: State, steps: seq<Step>)
    requires SplitRun(s, steps)
    decreases |steps|
  {
    Inv(s.db) && (steps == [] || AlwaysInv(Next(s, steps[0]), steps[1..]))
  }

  ghost predicate AlwaysClean(s: State, steps: seq<Step>)
    requires SplitRun(s, steps)
    decreases |steps|
  {
    steps == [] || (Clean(s, steps[0]) && AlwaysClean(Next(s, steps[0]), steps[1..]))
  }

  /** The audit invariant holds in every state of a run, if and only if every step of it is clean. */
  lemma {:induction false} InvExactly(s: State, steps: seq<Step>)
    requires Inv(s.db) && SplitRun(s, steps)
    ensures AlwaysInv(s, steps) <==> AlwaysClean(s, steps)
    ensures AlwaysClean(s, steps) ==> Inv(SplitExec(s, steps).db)
    decreases |steps|
  {
    if steps != [] {
      InvExact(s, steps[0]);
      if Clean(s, steps[0]) {
        InvExactly(Next(s, steps[0]), steps[1..]);
      }
    }
  }

  lemma SoundStepIsClean(s: State, step: Step)
    requires SplitInv(s) && Possible(s, step)
    ensures Clean(s, step)
  {
    forall k | Open(s.db, k) && k.job in s.db.jobs
      ensures s.db.jobs[k.job].status.Running?
      ensures forall c :: c in s.running ==> !Expired(s.db.jobs[k.job], s.running[c].at)
    {
      assert Agrees(s.db.attempts[k], k.number, s.db.jobs[k.job]);
      assert forall c :: c in s.running ==> !Dangling(s.db, k, s.running[c].at);
    }
  }

  /** A timely run is clean; the harm of an untimely lease only comes with the next statement that takes its job. */
  lemma {:induction false} TimelyIsClean(s: State, steps: seq<Step>)
    requires SplitInv(s) && SplitRun(s, steps) && AlwaysTimely(s, steps)
    ensures AlwaysClean(s, steps)
    decreases |steps|
  {
    if steps != [] {
      SoundStepIsClean(s, steps[0]);
      StepExact(s, steps[0]);
      TimelyIsClean(Next(s, steps[0]), steps[1..]);
    }
  }

  // --- Two open attempts, exactly ---

  ghost predicate NoTwoOpen(db: Db) {
    forall k, k' :: Open(db, k) && Open(db, k') && k.job == k'.job ==> k == k'
  }

  /** The step opens an attempt of a job that keeps an open one. */
  ghost predicate OpensSecond(s: State, step: Step) {
    match step
    case LeaseStatement(_, tokens, _, _) => exists k :: Open(s.db, k) && k.job in tokens
    case Whole(e) => e.Claim? && exists k :: Open(s.db, k) && k.job in e.tokens && !Dangling(s.db, k, s.db.now)
    case _ => false
  }

  lemma RowsAddedTwoOpen(db: Db, at: Time, tokens: map<Uuid, Token>, worker: nat, db': Db)
    requires Numbered(db) && NoTwoOpen(db) && CanLease(db, at, tokens) && RowsAdded(db, at, tokens, worker, db')
    ensures NoTwoOpen(db') <==> forall k :: Open(db, k) ==> k.job !in tokens
  {
    if k :| Open(db, k) && k.job in tokens {
      var second := AttemptId(k.job, db.jobs[k.job].attempts + 1);
      assert IsNewAttempt(db, second, tokens);
      assert Open(db', second) && Open(db', k);
    } else {
      forall k, k' | Open(db', k) && Open(db', k') && k.job == k'.job ensures k == k' {
        assert k in db.attempts ==> Open(db, k);
        assert k' in db.attempts ==> Open(db, k');
      }
    }
  }

  lemma ClaimTwoOpen(db: Db, tokens: map<Uuid, Token>, worker: nat, lease: nat, locked: set<Uuid>, db': Db)
    requires Numbered(db) && NoTwoOpen(db) && Enabled(db, Claim(tokens, worker, lease, locked))
    requires AttemptsClaimed(db, tokens, worker, db')
    ensures NoTwoOpen(db') <==> forall k :: Open(db, k) && k.job in tokens ==> Dangling(db, k, db.now)
  {
    if k :| Open(db, k) && k.job in tokens && !Dangling(db, k, db.now) {
      var second := AttemptId(k.job, db.jobs[k.job].attempts + 1);
      assert IsNewAttempt(db, second, tokens);
      assert Open(db', second) && Open(db', k);
    } else {
      forall k, k' | Open(db', k) && Open(db', k') && k.job == k'.job ensures k == k' {
        assert k in db.attempts ==> Open(db, k) && !Dangling(db, k, db.now);
        assert k' in db.attempts ==> Open(db, k') && !Dangling(db, k', db.now);
      }
    }
  }

  /** A step that opens no attempt leaves none open that was not. */
  lemma NothingOpened(db: Db, db': Db)
    requires NoTwoOpen(db) && forall k :: Open(db', k) ==> Open(db, k)
    ensures NoTwoOpen(db')
  {
  }

  lemma EventTwoOpen(s: State, e: Event)
    requires Logged(s.db) && NoTwoOpen(s.db) && Possible(s, Whole(e))
    ensures NoTwoOpen(Apply(s.db, e)) <==> !OpensSecond(s, Whole(e))
  {
    match e
    case Claim(tokens, worker, lease, locked) =>
      ClaimedAttempts(s.db, tokens, worker, lease, locked);
      ClaimTwoOpen(s.db, tokens, worker, lease, locked, Apply(s.db, e));
    case _ => NothingOpened(s.db, Apply(s.db, e));
  }

  /** One step gives no job a second open attempt exactly when it opens none beside an open one. */
  lemma TwoOpenExact(s: State, step: Step)
    requires Logged(s.db) && NoTwoOpen(s.db) && Possible(s, step)
    ensures NoTwoOpen(Next(s, step).db) <==> !OpensSecond(s, step)
  {
    match step
    case Whole(e) => EventTwoOpen(s, e);
    case LeaseStatement(c, tokens, worker, lease) =>
      LeaseAddsRows(s.db, s.running[c].at, tokens, worker, lease);
      RowsAddedTwoOpen(s.db, s.running[c].at, tokens, worker, Next(s, step).db);
    case _ => NothingOpened(s.db, Next(s, step).db);
  }

  lemma StatementKeepsLogged(s: State, step: Step)
    requires Logged(s.db) && Possible(s, step)
    ensures Logged(Next(s, step).db)
  {
    match step
    case Whole(e) => StepKeepsLogged(s.db, e);
    case CloseStatement(_) => CloseKeepsLogged(s.db, s.db.now);
    case KillStatement(c, locked) => KillKeepsLogged(s.db, s.running[c].at, locked);
    case LeaseStatement(c, tokens, worker, lease) => LeaseKeepsLogged(s.db, s.running[c].at, tokens, worker, lease);
  }

  ghost predicate NeverTwoOpen(s: State, steps: seq<Step>)
    requires SplitRun(s, steps)
    decreases |steps|
  {
    NoTwoOpen(s.db) && (steps == [] || NeverTwoOpen(Next(s, steps[0]), steps[1..]))
  }

  ghost predicate NeverOpensSecond(s: State, steps: seq<Step>)
    requires SplitRun(s, steps)
    decreases |steps|
  {
    steps == [] || (!OpensSecond(s, steps[0]) && NeverOpensSecond(Next(s, steps[0]), steps[1..]))
  }

  /** No job has two open attempts in any state of a run, if and only if no step of it opens one beside an open one. */
  lemma {:induction false} TwoOpenExactly(s: State, steps: seq<Step>)
    requires Logged(s.db) && NoTwoOpen(s.db) && SplitRun(s, steps)
    ensures NeverTwoOpen(s, steps) <==> NeverOpensSecond(s, steps)
    decreases |steps|
  {
    if steps != [] {
      TwoOpenExact(s, steps[0]);
      if !OpensSecond(s, steps[0]) {
        StatementKeepsLogged(s, steps[0]);
        TwoOpenExactly(Next(s, steps[0]), steps[1..]);
      }
    }
  }

  // --- A stalled claim ---

  const START: State := State(EMPTY, map[])

  function StallingRun(): seq<Step> {
    [Whole(Insert(0, SAMPLE, 3)), CloseStatement(1), KillStatement(1, {}), Whole(Tick(100)), CloseStatement(2), KillStatement(2, {})]
  }

  /** One due job; claim 1 began at time 0 and stalled, claim 2 began at time 100. */
  function Stalled(): State {
    State(Db(map[0 := NewJob(SAMPLE, 3, 0)], map[], 100, {}), map[1 := Stage(0, true), 2 := Stage(100, true)])
  }

  lemma StalledIsReachable()
    ensures SplitRun(START, StallingRun()) && SplitExec(START, StallingRun()) == Stalled()
  {
    var run := StallingRun();
    var s1 := Next(START, run[0]);
    var s2 := Next(s1, run[1]);
    var s3 := Next(s2, run[2]);
    var s4 := Next(s3, run[3]);
    var s5 := Next(s4, run[4]);
    assert s2.db == s1.db && s3.db == s1.db && s5.db == s4.db;
    assert Next(s5, run[5]) == Stalled();
    LastStep(s5, run[5..]);
    assert run[1..][1..] == run[2..] && run[2..][1..] == run[3..] && run[3..][1..] == run[4..] && run[4..][1..] == run[5..];
    assert SplitRun(s4, run[4..]) && SplitExec(s4, run[4..]) == Stalled();
    assert SplitRun(s3, run[3..]) && SplitExec(s3, run[3..]) == Stalled();
    assert SplitRun(s2, run[2..]) && SplitExec(s2, run[2..]) == Stalled();
    assert SplitRun(s1, run[1..]) && SplitExec(s1, run[1..]) == Stalled();
  }

  lemma LastStep(s: State, steps: seq<Step>)
    requires |steps| == 1 && Possible(s, steps[0])
    ensures SplitRun(s, steps) && SplitExec(s, steps) == Next(s, steps[0])
  {
    assert steps[1..] == [];
  }

  const LATE: Step := LeaseStatement(1, map[0 := 7], 1, 30)
  const SECOND: Step := LeaseStatement(2, map[0 := 8], 2, 30)

  /** The job is claimed once, its attempt is open, and claim 2 counts its lease as expired. */
  ghost predicate LeasedLate(s: State) {
    && s.running == map[2 := Stage(100, true)] && s.db.minted == {7}
    && 0 in s.db.jobs && Claimable(s.db.jobs[0], 100) && s.db.jobs[0].attempts == 1
    && AttemptId(0, 1) in s.db.attempts && s.db.attempts[AttemptId(0, 1)].outcome.None?
  }

  ghost predicate AboutToLeaseLate(s: State) {
    && s.running == map[1 := Stage(0, true), 2 := Stage(100, true)] && s.db.minted == {}
    && 0 in s.db.jobs && s.db.jobs[0] == NewJob(SAMPLE, 3, 0)
  }

  lemma LatePossible(s: State)
    requires AboutToLeaseLate(s)
    ensures Possible(s, LATE) && LATE.tokens.Values == {7}
  {
    assert LATE.tokens[0] == 7 && LATE.tokens.Keys == {0};
  }

  lemma LateRow(db: Db)
    requires 0 in db.jobs && db.jobs[0] == NewJob(SAMPLE, 3, 0)
    ensures var after := LeaseAndRecord(db, 0, LATE.tokens, 1, 30);
      && AttemptId(0, 1) in after.attempts && after.attempts[AttemptId(0, 1)].outcome.None?
      && 0 in after.jobs && Claimable(after.jobs[0], 100) && after.jobs[0].attempts == 1
  {
    RecordedRow(LeaseDue(db, 0, LATE.tokens, 30), 0, LATE.tokens, 1, AttemptId(0, 1));
  }

  lemma AfterLate(s: State)
    requires AboutToLeaseLate(s)
    ensures Possible(s, LATE) && LeasedLate(Next(s, LATE))
  {
    LatePossible(s);
    LateRow(s.db);
  }

  lemma AfterSecond(s: State)
    requires LeasedLate(s)
    ensures Possible(s, SECOND)
    ensures var db := Next(s, SECOND).db;
      && AttemptId(0, 1) in db.attempts && db.attempts[AttemptId(0, 1)].outcome.None?
      && AttemptId(0, 2) in db.attempts && db.attempts[AttemptId(0, 2)].outcome.None?
  {
    assert SECOND.tokens.Values == {8} by {
      assert SECOND.tokens[0] == 8 && SECOND.tokens.Keys == {0};
    }
    RecordedRow(LeaseDue(s.db, 100, SECOND.tokens, 30), 100, SECOND.tokens, 2, AttemptId(0, 1));
    RecordedRow(LeaseDue(s.db, 100, SECOND.tokens, 30), 100, SECOND.tokens, 2, AttemptId(0, 2));
  }

  /**
   Without that condition the claim is false of the code: claim 1 now leases the job until time 30,
   claim 2 sees that lease expired, and both attempts of the job are open.
   */
  lemma StalledClaimLeavesTwoOpenAttempts()
    ensures SplitRun(START, StallingRun()) && SplitExec(START, StallingRun()) == Stalled()
    ensures Possible(Stalled(), LATE) && Possible(Next(Stalled(), LATE), SECOND)
    ensures var db := Next(Next(Stalled(), LATE), SECOND).db;
      && AttemptId(0, 1) in db.attempts && db.attempts[AttemptId(0, 1)].outcome.None?
      && AttemptId(0, 2) in db.attempts && db.attempts[AttemptId(0, 2)].outcome.None?
  {
    StalledIsReachable();
    AfterLate(Stalled());
    AfterSecond(Next(Stalled(), LATE));
  }
}
