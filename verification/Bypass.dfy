/**
 Bounded bypass: once a PENDING job's instant has passed, only the jobs already ordered at or
 before it can be claimed ahead of it, and only as long as they have budget.
 */
module Bypass {
  import opened Core
  import opened Queue
  import opened Audit
  import opened Selection
  import opened Progress
  import opened Sums

  /** The job is PENDING with budget, and the clock is past its next_attempt_at. */
  predicate Waiting(db: Db, id: Uuid) {
    && id in db.jobs && db.jobs[id].status.Pending?
    && db.jobs[id].attempts < db.jobs[id].maxAttempts
    && db.jobs[id].nextAttemptAt < db.now
  }

  /** What another job can still take before `id`: its remaining budget while it is unfinished and ordered at or before. */
  function Weight(jobs: map<Uuid, Job>, id: Uuid, x: Uuid): int
    requires id in jobs
  {
    if x in jobs && x != id && !Terminal(jobs[x]) && Precedes(jobs[x], jobs[id])
    then jobs[x].maxAttempts - jobs[x].attempts
    else 0
  }

  function WeightOf(jobs: map<Uuid, Job>, id: Uuid): Uuid -> int
    requires id in jobs
  {
    (x: Uuid) => Weight(jobs, id, x)
  }

  /** The remaining budgets of all jobs ordered at or before `id`. */
  function Ahead(jobs: map<Uuid, Job>, id: Uuid, ids: seq<Uuid>): int
    requires id in jobs
  {
    Sum(WeightOf(jobs, id), ids)
  }

  /** Every claim takes at least one row, in order, of those not locked elsewhere. */
  ghost predicate InOrder(db: Db, e: Event) {
    e.Claim? ==> exists limit: nat :: limit >= 1 && Selected(db, limit, e.tokens.Keys, e.locked)
  }

  ghost predicate AlwaysInOrder(db: Db, es: seq<Event>)
    requires Legal(db, es)
    decreases |es|
  {
    es == [] || (InOrder(db, es[0]) && AlwaysInOrder(Apply(db, es[0]), es[1..]))
  }

  /** The claim calls to which the job's row is visible. */
  function ClaimCalls(es: seq<Event>, id: Uuid): nat {
    if es == [] then 0 else (if es[0].Claim? && id !in es[0].locked then 1 else 0) + ClaimCalls(es[1..], id)
  }

  lemma WeightAfterClaim(db: Db, tokens: map<Uuid, Token>, lease: nat, locked: set<Uuid>, db': Db, id: Uuid, x: Uuid)
    requires Inv(db) && Waiting(db, id) && id !in tokens && JobsClaimed(db, tokens, lease, locked, db')
    requires x in tokens ==> x in db.jobs && Claimable(db.jobs[x], db.now)
    ensures db'.jobs[id] == db.jobs[id]
    ensures 0 <= Weight(db'.jobs, id, x) <= Weight(db.jobs, id, x)
    ensures x in tokens && Precedes(db.jobs[x], db.jobs[id]) ==> Weight(db'.jobs, id, x) < Weight(db.jobs, id, x)
  {
    if x in db.jobs {
      assert SatisfiesChecks(db.jobs[x]);
    }
  }

  /** A waiting job that is not claimed keeps its row, and nothing gains weight before it. */
  lemma WeightStep(db: Db, e: Event, id: Uuid, x: Uuid)
    requires Inv(db) && Enabled(db, e) && Waiting(db, id)
    requires e.Claim? ==> id !in e.tokens
    ensures Waiting(Apply(db, e), id) && Apply(db, e).jobs[id] == db.jobs[id]
    ensures 0 <= Weight(Apply(db, e).jobs, id, x) <= Weight(db.jobs, id, x)
  {
    if x in db.jobs {
      assert SatisfiesChecks(db.jobs[x]);
    }
    match e
    case Claim(tokens, worker, lease, locked) =>
      ClaimedJobs(db, tokens, worker, lease, locked);
      WeightAfterClaim(db, tokens, lease, locked, Apply(db, e), id, x);
    case Tick(_) =>
    case Insert(_, _, _) =>
    case Finalize(_, _, _) =>
    case Renew(_, _, _) =>
    case Replay(_, _) =>
  }

  /** A claim in order that passes over a waiting job spends budget ahead of it. */
  lemma BypassSpends(db: Db, tokens: map<Uuid, Token>, limit: nat, lease: nat, locked: set<Uuid>, db': Db,
                     id: Uuid) returns (x: Uuid)
    requires Inv(db) && Waiting(db, id) && id !in tokens
    requires limit >= 1 && id !in locked && Selected(db, limit, tokens.Keys, locked) && JobsClaimed(db, tokens, lease, locked, db')
    ensures Weight(db'.jobs, id, x) < Weight(db.jobs, id, x)
  {
    LeftBehind(db, limit, tokens.Keys, locked, id);
    x :| x in tokens.Keys;
    WeightAfterClaim(db, tokens, lease, locked, db', id, x);
  }

  /** A claim call that sees the waiting job and passes it over lowers what is ahead of it. */
  lemma PassedOver(db: Db, e: Event, id: Uuid, ids: seq<Uuid>)
    requires Inv(db) && Enabled(db, e) && Waiting(db, id) && InOrder(db, e)
    requires e.Claim? && id !in e.tokens && id !in e.locked && id in Apply(db, e).jobs
    requires forall x :: x !in ids ==> Weight(db.jobs, id, x) == 0
    requires forall x: Uuid :: 0 <= Weight(Apply(db, e).jobs, id, x) <= Weight(db.jobs, id, x)
    ensures Ahead(Apply(db, e).jobs, id, ids) < Ahead(db.jobs, id, ids)
  {
    var limit: nat :| limit >= 1 && Selected(db, limit, e.tokens.Keys, e.locked);
    ClaimedJobs(db, e.tokens, e.worker, e.lease, e.locked);
    var x := BypassSpends(db, e.tokens, limit, e.lease, e.locked, Apply(db, e), id);
    AheadFalls(db.jobs, Apply(db, e).jobs, id, ids, x);
  }

  lemma AheadStep(db: Db, e: Event, id: Uuid, ids: seq<Uuid>)
    requires Inv(db) && Enabled(db, e) && Waiting(db, id) && InOrder(db, e)
    requires e.Claim? ==> id !in e.tokens
    requires forall x :: x !in ids ==> Weight(db.jobs, id, x) == 0
    ensures Waiting(Apply(db, e), id)
    ensures forall x :: x !in ids ==> Weight(Apply(db, e).jobs, id, x) == 0
    ensures Ahead(Apply(db, e).jobs, id, ids) + (if e.Claim? && id !in e.locked then 1 else 0) <= Ahead(db.jobs, id, ids)
  {
    var db' := Apply(db, e);
    WeightStep(db, e, id, id);
    forall x: Uuid ensures 0 <= Weight(db'.jobs, id, x) <= Weight(db.jobs, id, x) {
      WeightStep(db, e, id, x);
    }
    if e.Claim? && id !in e.locked {
      PassedOver(db, e, id, ids);
    } else {
      SumLowers(WeightOf(db.jobs, id), WeightOf(db'.jobs, id), ids);
    }
  }

  lemma AheadFalls(jobs: map<Uuid, Job>, jobs': map<Uuid, Job>, id: Uuid, ids: seq<Uuid>, x: Uuid)
    requires id in jobs && id in jobs' && forall y :: 0 <= Weight(jobs', id, y) <= Weight(jobs, id, y)
    requires forall y :: y !in ids ==> Weight(jobs, id, y) == 0
    requires Weight(jobs', id, x) < Weight(jobs, id, x)
    ensures Ahead(jobs', id, ids) < Ahead(jobs, id, ids)
  {
    assert x in ids && WeightOf(jobs', id)(x) < WeightOf(jobs, id)(x);
    SumLowers(WeightOf(jobs, id), WeightOf(jobs', id), ids);
  }

  /**
   While a waiting job stays unclaimed, the number of claim calls is at most the budget ahead of it at
   the start, whatever retries, reclaims, inserts and replays happen.
   */
  lemma {:induction false} BoundedBypass(db: Db, es: seq<Event>, id: Uuid, ids: seq<Uuid>)
    requires Inv(db) && Legal(db, es) && Waiting(db, id) && AlwaysInOrder(db, es)
    requires forall e :: e in es && e.Claim? ==> id !in e.tokens
    requires forall x :: x !in ids ==> Weight(db.jobs, id, x) == 0
    ensures ClaimCalls(es, id) <= Ahead(db.jobs, id, ids)
    ensures id in Exec(db, es).jobs && Exec(db, es).jobs[id] == db.jobs[id]
    decreases |es|
  {
    if es == [] {
      forall x | x in ids ensures WeightOf(db.jobs, id)(x) >= 0 {
        WeightStep(db, Tick(0), id, x);
      }
      SumOfNonnegatives(WeightOf(db.jobs, id), ids);
    } else {
      AheadStep(db, es[0], id, ids);
      WeightStep(db, es[0], id, id);
      StepKeepsInv(db, es[0]);
      BoundedBypass(Apply(db, es[0]), es[1..], id, ids);
    }
  }

  /** One claim call more than that budget, and the job has been claimed. */
  lemma ClaimedInTime(db: Db, es: seq<Event>, id: Uuid, ids: seq<Uuid>)
    requires Inv(db) && Legal(db, es) && Waiting(db, id) && AlwaysInOrder(db, es)
    requires forall x :: x !in ids ==> Weight(db.jobs, id, x) == 0
    requires ClaimCalls(es, id) > Ahead(db.jobs, id, ids)
    ensures exists e :: e in es && e.Claim? && id in e.tokens
  {
    if forall e :: e in es && e.Claim? ==> id !in e.tokens {
      BoundedBypass(db, es, id, ids);
    }
  }
}
