/**
 Budgets are spent by claims and by nothing else, and every job ends: a rank per job never rises
 without an operator replay, and each round of waiting and claiming lowers the total.
 */
module Progress {
  import opened Core
  import opened Queue
  import opened Audit
  import opened Selection
  import opened Sums

  // --- Attempts count claims ---

  function ClaimsOf(es: seq<Event>, id: Uuid): nat {
    if es == [] then 0
    else (if es[0].Claim? && id in es[0].tokens then 1 else 0) + ClaimsOf(es[1..], id)
  }

  function AttemptsOf(db: Db, id: Uuid): int {
    if id in db.jobs then db.jobs[id].attempts else 0
  }

  lemma AttemptsStep(db: Db, e: Event, id: Uuid)
    requires Enabled(db, e)
    ensures AttemptsOf(Apply(db, e), id) == AttemptsOf(db, id) + ClaimsOf([e], id)
    ensures id in db.jobs ==> id in Apply(db, e).jobs
  {
    assert [e][1..] == [];
    match e
    case Claim(tokens, worker, lease, locked) => ClaimedJobs(db, tokens, worker, lease, locked);
    case Tick(_) =>
    case Insert(_, _, _) =>
    case Finalize(_, _, _) =>
    case Renew(_, _, _) =>
    case Replay(_, _) =>
  }

  /** Over any run, replays included, a job's attempts grow by exactly the number of claims that took it. */
  lemma {:induction false} AttemptsCountClaims(db: Db, es: seq<Event>, id: Uuid)
    requires Legal(db, es)
    ensures AttemptsOf(Exec(db, es), id) == AttemptsOf(db, id) + ClaimsOf(es, id)
    ensures id in db.jobs ==> id in Exec(db, es).jobs
    decreases |es|
  {
    if es != [] {
      AttemptsStep(db, es[0], id);
      AttemptsCountClaims(Apply(db, es[0]), es[1..], id);
      assert [es[0]][0] == es[0] && [es[0]][1..] == [];
    }
  }

  // --- Remaining budget ---

  /**
   The two writes that must leave budget behind: a reschedule is only sent while attempts remain,
   and an operator's new budget exceeds what was spent.
   */
  ghost predicate KeepsBudget(db: Db, e: Event) {
    && (e.Finalize? && e.verdict.Retry? && Held(db, e.id, e.token) ==> db.jobs[e.id].attempts < db.jobs[e.id].maxAttempts)
    && (e.Replay? && e.id in db.jobs && db.jobs[e.id].status.Dead? ==> db.jobs[e.id].attempts != e.budget)
  }

  ghost predicate AlwaysKeepsBudget(db: Db, es: seq<Event>)
    requires Legal(db, es)
    decreases |es|
  {
    es == [] || (KeepsBudget(db, es[0]) && AlwaysKeepsBudget(Apply(db, es[0]), es[1..]))
  }

  /** Every PENDING job can still be claimed one day. */
  ghost predicate NoneStranded(db: Db) {
    forall id :: id in db.jobs && db.jobs[id].status.Pending? ==> db.jobs[id].attempts < db.jobs[id].maxAttempts
  }

  lemma StrandedByClaim(db: Db, tokens: map<Uuid, Token>, worker: nat, lease: nat, locked: set<Uuid>)
    requires NoneStranded(db) && Enabled(db, Claim(tokens, worker, lease, locked))
    ensures NoneStranded(ClaimTx(db, tokens, worker, lease, locked))
  {
    ClaimedJobs(db, tokens, worker, lease, locked);
  }

  lemma StrandedByReplay(db: Db, id: Uuid, budget: int)
    requires Inv(db) && NoneStranded(db)
    ensures NoneStranded(ReplayTx(db, id, budget)) <==> KeepsBudget(db, Replay(id, budget))
  {
    if id in db.jobs && db.jobs[id].status.Dead? {
      assert SatisfiesChecks(db.jobs[id]) && db.jobs[id].attempts >= 1;
      if budget == db.jobs[id].attempts {
        assert ReplayTx(db, id, budget).jobs[id].status.Pending?;
      }
    }
  }

  lemma StrandedByFinalize(db: Db, id: Uuid, token: Token, v: Verdict)
    requires NoneStranded(db)
    ensures NoneStranded(FinalizeTx(db, id, token, v)) <==> KeepsBudget(db, Finalize(id, token, v))
  {
    var db' := FinalizeTx(db, id, token, v);
    if Held(db, id, token) {
      assert db'.jobs == db.jobs[id := JobAfter(db.jobs[id], v, db.now)];
      assert db'.jobs[id].attempts == db.jobs[id].attempts;
    }
  }

  /** One step keeps every PENDING job claimable exactly when it keeps budget. */
  lemma StrandedStep(db: Db, e: Event)
    requires Inv(db) && NoneStranded(db) && Enabled(db, e)
    ensures NoneStranded(Apply(db, e)) <==> KeepsBudget(db, e)
  {
    match e
    case Claim(tokens, worker, lease, locked) => StrandedByClaim(db, tokens, worker, lease, locked);
    case Finalize(id, token, v) => StrandedByFinalize(db, id, token, v);
    case Replay(id, budget) => StrandedByReplay(db, id, budget);
    case _ => NotStrandedByOthers(db, e);
  }

  lemma NotStrandedByOthers(db: Db, e: Event)
    requires NoneStranded(db) && (e.Tick? || e.Insert? || e.Renew?)
    ensures NoneStranded(Apply(db, e)) && KeepsBudget(db, e)
  {
  }

  lemma {:induction false} NeverStranded(db: Db, es: seq<Event>)
    requires Inv(db) && NoneStranded(db) && Legal(db, es) && AlwaysKeepsBudget(db, es)
    ensures Inv(Exec(db, es)) && NoneStranded(Exec(db, es))
    decreases |es|
  {
    if es != [] {
      StepKeepsInv(db, es[0]);
      StrandedStep(db, es[0]);
      NeverStranded(Apply(db, es[0]), es[1..]);
    }
  }

  /** A PENDING job without budget is never touched again, by anyone, for ever. */
  lemma {:induction false} StrandedForever(db: Db, es: seq<Event>, id: Uuid)
    requires Legal(db, es) && id in db.jobs
    requires db.jobs[id].status.Pending? && db.jobs[id].attempts >= db.jobs[id].maxAttempts
    ensures id in Exec(db, es).jobs && Exec(db, es).jobs[id] == db.jobs[id]
    decreases |es|
  {
    if es != [] {
      match es[0] {
        case Claim(tokens, worker, lease, locked) => ClaimedJobs(db, tokens, worker, lease, locked);
        case _ =>
      }
      StrandedForever(Apply(db, es[0]), es[1..], id);
    }
  }

  /** Any other job that is not finished becomes claimable, or due for burial, once the clock has advanced far enough. */
  lemma NeverStuck(db: Db, id: Uuid, wait: nat)
    requires Inv(db) && NoneStranded(db) && id in db.jobs
    requires db.jobs[id].status.Pending? ==> db.jobs[id].nextAttemptAt <= db.now + wait
    requires db.jobs[id].status.Running? ==>
      db.jobs[id].leaseExpiresAt.Some? ==> db.jobs[id].leaseExpiresAt.value <= db.now + wait
    ensures var later := Apply(db, Tick(wait));
      Terminal(db.jobs[id]) || Claimable(later.jobs[id], later.now) || Exhausted(later.jobs[id], later.now)
  {
    assert SatisfiesChecks(db.jobs[id]);
  }

  // --- Rank ---

  predicate Terminal(j: Job) {
    j.status.Succeeded? || j.status.Dead?
  }

  /** Nothing once finished; otherwise lexicographic in the remaining budget, then RUNNING over PENDING. */
  function Rank(j: Job): int {
    if Terminal(j) then 0
    else 3 * (j.maxAttempts - j.attempts) + (if j.status.Running? then 2 else 1)
  }

  predicate Lowers(jobs: map<Uuid, Job>, jobs': map<Uuid, Job>, id: Uuid) {
    id in jobs && id in jobs' && 0 <= Rank(jobs'[id]) <= Rank(jobs[id])
  }

  predicate Falls(jobs: map<Uuid, Job>, jobs': map<Uuid, Job>, id: Uuid) {
    id in jobs && id in jobs' && Rank(jobs'[id]) < Rank(jobs[id])
  }

  lemma RankClaimed(db: Db, tokens: map<Uuid, Token>, lease: nat, locked: set<Uuid>, db': Db, id: Uuid)
    requires Schema(db) && JobsClaimed(db, tokens, lease, locked, db') && id in db.jobs
    requires id in tokens ==> Claimable(db.jobs[id], db.now)
    ensures Lowers(db.jobs, db'.jobs, id)
    ensures id in tokens || (Exhausted(db.jobs[id], db.now) && id !in locked) ==> Falls(db.jobs, db'.jobs, id)
  {
    assert SatisfiesChecks(db.jobs[id]);
  }

  lemma RankStep(db: Db, e: Event, id: Uuid)
    requires Inv(db) && Enabled(db, e) && !e.Replay? && id in db.jobs
    ensures Lowers(db.jobs, Apply(db, e).jobs, id)
  {
    assert SatisfiesChecks(db.jobs[id]);
    match e
    case Claim(tokens, worker, lease, locked) =>
      ClaimedJobs(db, tokens, worker, lease, locked);
      RankClaimed(db, tokens, lease, locked, Apply(db, e), id);
    case Tick(_) =>
    case Insert(_, _, _) =>
    case Finalize(_, _, _) =>
    case Renew(_, _, _) =>
  }

  lemma {:induction false} RankRun(db: Db, es: seq<Event>, id: Uuid)
    requires Inv(db) && Legal(db, es) && id in db.jobs
    requires forall e :: e in es ==> !e.Replay?
    ensures Lowers(db.jobs, Exec(db, es).jobs, id)
    decreases |es|
  {
    if es == [] {
      assert SatisfiesChecks(db.jobs[id]);
    } else {
      RankStep(db, es[0], id);
      StepKeepsInv(db, es[0]);
      RankRun(Apply(db, es[0]), es[1..], id);
    }
  }

  lemma {:induction false} BudgetRun(db: Db, es: seq<Event>, id: Uuid)
    requires Legal(db, es) && id in db.jobs
    requires forall e :: e in es ==> !(e.Replay? && e.id == id)
    ensures id in Exec(db, es).jobs && Exec(db, es).jobs[id].maxAttempts == db.jobs[id].maxAttempts
    decreases |es|
  {
    if es != [] {
      match es[0] {
        case Claim(tokens, worker, lease, locked) => ClaimedJobs(db, tokens, worker, lease, locked);
        case _ =>
      }
      BudgetRun(Apply(db, es[0]), es[1..], id);
    }
  }

  /** Without a replay a job is claimed at most as often as it has budget left. */
  lemma ClaimedWithinBudget(db: Db, es: seq<Event>, id: Uuid)
    requires Inv(db) && Legal(db, es) && id in db.jobs
    requires forall e :: e in es ==> !(e.Replay? && e.id == id)
    ensures ClaimsOf(es, id) <= db.jobs[id].maxAttempts - db.jobs[id].attempts
  {
    AttemptsCountClaims(db, es, id);
    BudgetRun(db, es, id);
    RunKeepsInv(db, es);
    assert SatisfiesChecks(Exec(db, es).jobs[id]);
  }

  // --- Draining ---

  function RankOf(jobs: map<Uuid, Job>): Uuid -> int {
    id => if id in jobs then Rank(jobs[id]) else 0
  }

  function TotalRank(jobs: map<Uuid, Job>, ids: seq<Uuid>): int {
    Sum(RankOf(jobs), ids)
  }

  lemma TotalRankLowers(jobs: map<Uuid, Job>, jobs': map<Uuid, Job>, ids: seq<Uuid>)
    requires forall id :: id in ids ==> Lowers(jobs, jobs', id)
    ensures 0 <= TotalRank(jobs', ids) <= TotalRank(jobs, ids)
    ensures (exists id :: id in ids && Falls(jobs, jobs', id)) ==> TotalRank(jobs', ids) < TotalRank(jobs, ids)
  {
    forall id | id in ids ensures 0 <= RankOf(jobs')(id) <= RankOf(jobs)(id) {
      assert Lowers(jobs, jobs', id);
    }
    SumLowers(RankOf(jobs), RankOf(jobs'), ids);
    SumOfNonnegatives(RankOf(jobs'), ids);
    if id :| id in ids && Falls(jobs, jobs', id) {
      assert RankOf(jobs')(id) < RankOf(jobs)(id);
    }
  }

  /** The total rank is zero exactly when every job is finished. */
  lemma RankZero(db: Db, ids: seq<Uuid>)
    requires Inv(db) && forall id :: id in ids ==> id in db.jobs
    ensures TotalRank(db.jobs, ids) >= 0
    ensures TotalRank(db.jobs, ids) == 0 <==> forall id :: id in ids ==> Terminal(db.jobs[id])
  {
    forall id | id in ids
      ensures RankOf(db.jobs)(id) >= 0 && (RankOf(db.jobs)(id) == 0 <==> Terminal(db.jobs[id]))
    {
      assert SatisfiesChecks(db.jobs[id]);
    }
    SumOfNonnegatives(RankOf(db.jobs), ids);
  }

  /** Wait, claim at least one row if one is claimable, then let anything at all happen but inserts and replays. */
  datatype Round = Round(wait: nat, limit: nat, tokens: map<Uuid, Token>, worker: nat, lease: nat, locked: set<Uuid>, rest: seq<Event>)

  /** If any job is unfinished, then one that the claim can see is claimable or due for burial: nothing is asked of the others. */
  predicate SomeDue(db: Db, locked: set<Uuid>) {
    (forall id :: id in db.jobs ==> Terminal(db.jobs[id])) ||
    (exists id :: id in db.jobs && id !in locked && (Claimable(db.jobs[id], db.now) || Exhausted(db.jobs[id], db.now)))
  }

  ghost predicate RoundPossible(db: Db, r: Round) {
    var waited := Apply(db, Tick(r.wait));
    && SomeDue(waited, r.locked)
    && r.limit >= 1 && Selected(waited, r.limit, r.tokens.Keys, r.locked)
    && Enabled(waited, Claim(r.tokens, r.worker, r.lease, r.locked))
    && Legal(ClaimTx(waited, r.tokens, r.worker, r.lease, r.locked), r.rest)
    && forall e :: e in r.rest ==> !e.Replay? && !e.Insert?
  }

  ghost function After(db: Db, r: Round): Db
    requires RoundPossible(db, r)
  {
    Exec(ClaimTx(Apply(db, Tick(r.wait)), r.tokens, r.worker, r.lease, r.locked), r.rest)
  }

  ghost predicate RoundsPossible(db: Db, rs: seq<Round>)
    decreases |rs|
  {
    rs == [] || (RoundPossible(db, rs[0]) && RoundsPossible(After(db, rs[0]), rs[1..]))
  }

  ghost function AfterAll(db: Db, rs: seq<Round>): Db
    requires RoundsPossible(db, rs)
    decreases |rs|
  {
    if rs == [] then db else AfterAll(After(db, rs[0]), rs[1..])
  }

  lemma {:induction false} KeysRun(db: Db, es: seq<Event>)
    requires Legal(db, es) && forall e :: e in es ==> !e.Insert?
    ensures Exec(db, es).jobs.Keys == db.jobs.Keys
    decreases |es|
  {
    if es != [] {
      KeysRun(Apply(db, es[0]), es[1..]);
    }
  }

  /** With some job due, an ordered claim of at least one row lowers the rank of some job. */
  lemma ClaimFells(db: Db, limit: nat, tokens: map<Uuid, Token>, lease: nat, locked: set<Uuid>, db': Db,
                   id: Uuid) returns (x: Uuid)
    requires Schema(db) && limit >= 1 && Selected(db, limit, tokens.Keys, locked) && JobsClaimed(db, tokens, lease, locked, db')
    requires id in db.jobs && id !in locked && (Claimable(db.jobs[id], db.now) || Exhausted(db.jobs[id], db.now))
    ensures Falls(db.jobs, db'.jobs, x)
  {
    x := id;
    if Claimable(db.jobs[id], db.now) && id !in tokens {
      LeftBehind(db, limit, tokens.Keys, locked, id);
      x :| x in tokens.Keys;
    }
    RankClaimed(db, tokens, lease, locked, db', x);
  }

  lemma ClaimLowersTotal(db: Db, limit: nat, tokens: map<Uuid, Token>, lease: nat, locked: set<Uuid>, db': Db,
                         ids: seq<Uuid>)
    requires Inv(db) && SomeDue(db, locked)
    requires limit >= 1 && Selected(db, limit, tokens.Keys, locked) && JobsClaimed(db, tokens, lease, locked, db')
    requires forall id :: id in ids <==> id in db.jobs
    ensures 0 <= TotalRank(db'.jobs, ids) <= TotalRank(db.jobs, ids)
    ensures (exists id :: id in db.jobs && !Terminal(db.jobs[id])) ==> TotalRank(db'.jobs, ids) < TotalRank(db.jobs, ids)
  {
    forall id | id in ids ensures Lowers(db.jobs, db'.jobs, id) {
      RankClaimed(db, tokens, lease, locked, db', id);
    }
    TotalRankLowers(db.jobs, db'.jobs, ids);
    if exists id :: id in db.jobs && !Terminal(db.jobs[id]) {
      var due :| due in db.jobs && due !in locked && (Claimable(db.jobs[due], db.now) || Exhausted(db.jobs[due], db.now));
      var x := ClaimFells(db, limit, tokens, lease, locked, db', due);
      assert x in ids;
    }
  }

  lemma RestLowersTotal(db: Db, es: seq<Event>, ids: seq<Uuid>)
    requires Inv(db) && Legal(db, es) && forall e :: e in es ==> !e.Replay? && !e.Insert?
    requires forall id :: id in ids <==> id in db.jobs
    ensures 0 <= TotalRank(Exec(db, es).jobs, ids) <= TotalRank(db.jobs, ids)
    ensures Exec(db, es).jobs.Keys == db.jobs.Keys
  {
    KeysRun(db, es);
    forall id | id in db.jobs ensures Lowers(db.jobs, Exec(db, es).jobs, id) {
      RankRun(db, es, id);
    }
    TotalRankLowers(db.jobs, Exec(db, es).jobs, ids);
  }

  lemma RoundLowers(db: Db, r: Round, ids: seq<Uuid>)
    requires Inv(db) && RoundPossible(db, r)
    requires forall id :: id in ids <==> id in db.jobs
    ensures Inv(After(db, r)) && After(db, r).jobs.Keys == db.jobs.Keys
    ensures 0 <= TotalRank(After(db, r).jobs, ids) <= TotalRank(db.jobs, ids)
    ensures (exists id :: id in db.jobs && !Terminal(db.jobs[id])) ==>
      TotalRank(After(db, r).jobs, ids) < TotalRank(db.jobs, ids)
  {
    var waited := Apply(db, Tick(r.wait));
    var claimed := ClaimTx(waited, r.tokens, r.worker, r.lease, r.locked);
    StepKeepsInv(db, Tick(r.wait));
    ClaimedJobs(waited, r.tokens, r.worker, r.lease, r.locked);
    ClaimLowersTotal(waited, r.limit, r.tokens, r.lease, r.locked, claimed, ids);
    ClaimKeepsInv(waited, r.tokens, r.worker, r.lease, r.locked);
    RunKeepsInv(claimed, r.rest);
    RestLowersTotal(claimed, r.rest, ids);
  }

  /**
   Drain: repeat waiting until some job is due and claiming, with arbitrary crashes, failures, stale calls, other
   claims and renewals in between, and after at most TotalRank rounds every job is SUCCEEDED or DEAD.
   */
  lemma {:induction false} Drains(db: Db, rs: seq<Round>, ids: seq<Uuid>)
    requires Inv(db) && RoundsPossible(db, rs)
    requires forall id :: id in ids <==> id in db.jobs
    requires |rs| >= TotalRank(db.jobs, ids)
    ensures AfterAll(db, rs).jobs.Keys == db.jobs.Keys
    ensures forall id :: id in db.jobs ==> Terminal(AfterAll(db, rs).jobs[id])
    decreases |rs|
  {
    RankZero(db, ids);
    if rs != [] {
      RoundLowers(db, rs[0], ids);
      Drains(After(db, rs[0]), rs[1..], ids);
    }
  }

  // --- Rounds are always possible ---

  lemma {:induction false} SomeInstantPastAll(jobs: map<Uuid, Job>, ids: set<Uuid>) returns (t: nat)
    requires ids <= jobs.Keys
    ensures forall id :: id in ids ==> jobs[id].nextAttemptAt <= t
    ensures forall id :: id in ids && jobs[id].leaseExpiresAt.Some? ==> jobs[id].leaseExpiresAt.value <= t
    decreases |ids|
  {
    if ids == {} {
      t := 0;
    } else {
      var id :| id in ids;
      var rest := SomeInstantPastAll(jobs, ids - {id});
      var lease := if jobs[id].leaseExpiresAt.Some? then jobs[id].leaseExpiresAt.value else 0;
      t := Max(rest, Max(jobs[id].nextAttemptAt, lease));
      assert forall x :: x in ids ==> x == id || x in ids - {id};
    }
  }

  lemma {:induction false} FreshTokensExist(db: Db, ids: set<Uuid>) returns (tokens: map<Uuid, Token>)
    ensures tokens.Keys == ids && FreshTokens(db, tokens)
    decreases |ids|
  {
    if ids == {} {
      tokens := map[];
    } else {
      var id :| id in ids;
      var rest := FreshTokensExist(db, ids - {id});
      var token := AnUnusedToken(db.minted + rest.Values);
      tokens := rest[id := token];
      assert forall x :: x in rest ==> rest[x] in rest.Values;
    }
  }

  /** When nothing is stranded, waiting long enough makes some job due, if any is unfinished. */
  lemma WaitingMakesDue(db: Db) returns (wait: nat)
    requires Inv(db) && NoneStranded(db)
    ensures SomeDue(Apply(db, Tick(wait)), {})
  {
    var t := SomeInstantPastAll(db.jobs, db.jobs.Keys);
    wait := Max(0, t - db.now);
    if id :| id in db.jobs && !Terminal(db.jobs[id]) {
      NeverStuck(db, id, wait);
    }
  }

  /** In every state without stranded jobs there is a round, with nothing but the waiting and the claim. */
  lemma RoundExists(db: Db) returns (r: Round)
    requires Inv(db) && NoneStranded(db)
    ensures RoundPossible(db, r) && r.rest == [] && r.locked == {}
  {
    var wait := WaitingMakesDue(db);
    var waited := Apply(db, Tick(wait));
    var pool := ClaimableIds(waited) - {};
    SelectionExists(waited.jobs, pool, 10);
    var due :| Selects(waited.jobs, pool, 10, due);
    var tokens := FreshTokensExist(waited, due);
    r := Round(wait, 10, tokens, 1, 30, {}, []);
  }

  lemma RoundKeepsUnstranded(db: Db, r: Round)
    requires Inv(db) && NoneStranded(db) && RoundPossible(db, r)
    requires AlwaysKeepsBudget(ClaimTx(Apply(db, Tick(r.wait)), r.tokens, r.worker, r.lease, r.locked), r.rest)
    ensures Inv(After(db, r)) && NoneStranded(After(db, r))
  {
    var waited := Apply(db, Tick(r.wait));
    StepKeepsInv(db, Tick(r.wait));
    ClaimKeepsInv(waited, r.tokens, r.worker, r.lease, r.locked);
    StrandedByClaim(waited, r.tokens, r.worker, r.lease, r.locked);
    NeverStranded(ClaimTx(waited, r.tokens, r.worker, r.lease, r.locked), r.rest);
  }

  /** So from every such state a finished one is reachable, and as many further rounds as one likes. */
  lemma {:induction false} RoundsExist(db: Db, n: nat) returns (rs: seq<Round>)
    requires Inv(db) && NoneStranded(db)
    ensures |rs| == n && RoundsPossible(db, rs)
    decreases n
  {
    if n == 0 {
      rs := [];
    } else {
      var r := RoundExists(db);
      RoundKeepsUnstranded(db, r);
      var rest := RoundsExist(After(db, r), n - 1);
      rs := [r] + rest;
      assert rs[1..] == rest;
    }
  }
}
