/**
 The whole system drains: the rounds of module Progress, with the workers' own steps in place of arbitrary
 events. A worker never leaves a job stranded, by its code and by fencing, so there is always a next round.
 */
module Drain {
  import opened Core
  import opened Queue
  import opened Selection
  import opened Progress
  import opened Protocol
  import opened ExactlyOnce
  import opened Reasons

  /** What a schedule does to the database. */
  ghost function EventsOf(s: Sys, acts: seq<Act>): seq<Event>
    requires Schedulable(s, acts)
    decreases |acts|
  {
    if acts == [] then [] else DbEvents(s, acts[0]) + EventsOf(Next(s, acts[0]), acts[1..])
  }

  predicate NoNewWork(a: Act) {
    a.Database? ==> !a.e.Replay? && !a.e.Insert?
  }

  /** Every schedule is a run of the queue machine, and one in which everybody keeps budget if nobody retries a job. */
  lemma {:induction false} ScheduleIsDbRun(s: Sys, acts: seq<Act>)
    requires SysInv(s) && Schedulable(s, acts) && forall a :: a in acts ==> NoNewWork(a)
    ensures Legal(s.db, EventsOf(s, acts)) && Exec(s.db, EventsOf(s, acts)) == Final(s, acts).db
    ensures AlwaysKeepsBudget(s.db, EventsOf(s, acts))
    ensures forall e :: e in EventsOf(s, acts) ==> !e.Replay? && !e.Insert?
    decreases |acts|
  {
    if acts != [] {
      var a := acts[0];
      var rest := EventsOf(Next(s, a), acts[1..]);
      assert a in acts && forall b :: b in acts[1..] ==> b in acts;
      ActKeepsSys(s, a);
      ScheduleIsDbRun(Next(s, a), acts[1..]);
      StepIsDbRun(s, a);
      if DbEvents(s, a) == [] {
        assert EventsOf(s, acts) == rest;
      } else {
        var e := DbEvents(s, a)[0];
        OneEvent(s.db, e);
        WorkersKeepBudget(s, a, e);
        ExecCons(s.db, e, rest);
        assert EventsOf(s, acts) == [e] + rest && ([e] + rest)[1..] == rest;
      }
    }
  }

  /** Wait until some job is due, claim at least one row, then let workers, service and clock do anything at all. */
  datatype SysRound = SysRound(wait: nat, limit: nat, claim: Event, rest: seq<Act>)

  /** The claim of a round, in the state after the waiting. */
  ghost predicate ClaimDue(waited: Db, r: SysRound) {
    && r.claim.Claim? && SomeDue(waited, r.claim.locked) && r.limit >= 1
    && Selected(waited, r.limit, r.claim.tokens.Keys, r.claim.locked) && Enabled(waited, r.claim)
  }

  /** The state after the waiting and the claim. */
  ghost function ClaimedIn(s: Sys, r: SysRound): Sys
    requires ClaimDue(Apply(s.db, Tick(r.wait)), r)
  {
    Next(Next(s, Database(Tick(r.wait))), Database(r.claim))
  }

  ghost predicate SysRoundPossible(s: Sys, r: SysRound) {
    && ClaimDue(Apply(s.db, Tick(r.wait)), r) && Schedulable(ClaimedIn(s, r), r.rest)
    && forall a :: a in r.rest ==> NoNewWork(a)
  }

  ghost function AfterSysRound(s: Sys, r: SysRound): Sys
    requires SysRoundPossible(s, r)
  {
    Final(ClaimedIn(s, r), r.rest)
  }

  ghost predicate SysRoundsPossible(s: Sys, rs: seq<SysRound>)
    decreases |rs|
  {
    rs == [] || (SysRoundPossible(s, rs[0]) && SysRoundsPossible(AfterSysRound(s, rs[0]), rs[1..]))
  }

  ghost function AfterSysRounds(s: Sys, rs: seq<SysRound>): Sys
    requires SysRoundsPossible(s, rs)
    decreases |rs|
  {
    if rs == [] then s else AfterSysRounds(AfterSysRound(s, rs[0]), rs[1..])
  }

  lemma ClaimedInDb(s: Sys, r: SysRound)
    requires SysInv(s) && ClaimDue(Apply(s.db, Tick(r.wait)), r)
    ensures SysInv(ClaimedIn(s, r)) && ClaimedIn(s, r).db == Apply(Apply(s.db, Tick(r.wait)), r.claim)
  {
    ActKeepsSys(s, Database(Tick(r.wait)));
    ActKeepsSys(Next(s, Database(Tick(r.wait))), Database(r.claim));
  }

  lemma RoundKeepsSys(s: Sys, r: SysRound)
    requires SysInv(s) && SysRoundPossible(s, r)
    ensures SysInv(AfterSysRound(s, r))
  {
    ClaimedInDb(s, r);
    ScheduleKeepsSys(ClaimedIn(s, r), r.rest);
  }

  function RoundFor(r: SysRound, es: seq<Event>): Round
    requires r.claim.Claim?
  {
    Round(r.wait, r.limit, r.claim.tokens, r.claim.worker, r.claim.lease, r.claim.locked, es)
  }

  lemma RoundInDb(db: Db, r: SysRound, claimed: Db, es: seq<Event>)
    requires ClaimDue(Apply(db, Tick(r.wait)), r) && claimed == Apply(Apply(db, Tick(r.wait)), r.claim)
    requires Legal(claimed, es) && forall e :: e in es ==> !e.Replay? && !e.Insert?
    ensures RoundPossible(db, RoundFor(r, es)) && After(db, RoundFor(r, es)) == Exec(claimed, es)
    ensures claimed == ClaimTx(Apply(db, Tick(r.wait)), r.claim.tokens, r.claim.worker, r.claim.lease, r.claim.locked)
  {
    assert r.claim == Claim(r.claim.tokens, r.claim.worker, r.claim.lease, r.claim.locked);
  }

  /** A round of the system is a round of the queue machine, and strands no job. */
  lemma RoundOfSystem(s: Sys, r: SysRound) returns (round: Round)
    requires SysInv(s) && SysRoundPossible(s, r)
    ensures RoundPossible(s.db, round) && After(s.db, round) == AfterSysRound(s, r).db
    ensures NoneStranded(s.db) ==> NoneStranded(AfterSysRound(s, r).db)
  {
    var claimed := ClaimedIn(s, r);
    ClaimedInDb(s, r);
    ScheduleIsDbRun(claimed, r.rest);
    var es := EventsOf(claimed, r.rest);
    RoundInDb(s.db, r, claimed.db, es);
    round := RoundFor(r, es);
    if NoneStranded(s.db) {
      RoundKeepsUnstranded(s.db, round);
    }
  }

  lemma OneMoreRound(db: Db, round: Round, rest: seq<Round>)
    requires RoundPossible(db, round) && RoundsPossible(After(db, round), rest)
    ensures RoundsPossible(db, [round] + rest) && AfterAll(db, [round] + rest) == AfterAll(After(db, round), rest)
  {
    assert ([round] + rest)[1..] == rest;
  }

  lemma {:induction false} RoundsOfSystem(s: Sys, rs: seq<SysRound>) returns (rounds: seq<Round>)
    requires SysInv(s) && SysRoundsPossible(s, rs)
    ensures |rounds| == |rs| && RoundsPossible(s.db, rounds) && AfterAll(s.db, rounds) == AfterSysRounds(s, rs).db
    decreases |rs|
  {
    rounds := [];
    if rs != [] {
      var round := RoundKeepingSys(s, rs[0]);
      var rest := RoundsOfSystem(AfterSysRound(s, rs[0]), rs[1..]);
      OneMoreRound(s.db, round, rest);
      rounds := [round] + rest;
    }
  }

  lemma RoundKeepingSys(s: Sys, r: SysRound) returns (round: Round)
    requires SysInv(s) && SysRoundPossible(s, r)
    ensures SysInv(AfterSysRound(s, r))
    ensures RoundPossible(s.db, round) && After(s.db, round) == AfterSysRound(s, r).db
  {
    round := RoundOfSystem(s, r);
    RoundKeepsSys(s, r);
  }

  lemma {:induction false} RoundsKeepSys(s: Sys, rs: seq<SysRound>)
    requires SysInv(s) && SysRoundsPossible(s, rs)
    ensures SysInv(AfterSysRounds(s, rs))
    decreases |rs|
  {
    if rs != [] {
      RoundKeepsSys(s, rs[0]);
      RoundsKeepSys(AfterSysRound(s, rs[0]), rs[1..]);
    }
  }

  lemma {:induction false} RoundsStrandNone(s: Sys, rs: seq<SysRound>)
    requires SysInv(s) && NoneStranded(s.db) && SysRoundsPossible(s, rs)
    ensures NoneStranded(AfterSysRounds(s, rs).db)
    decreases |rs|
  {
    if rs != [] {
      var _ := RoundOfSystem(s, rs[0]);
      RoundKeepsSys(s, rs[0]);
      RoundsStrandNone(AfterSysRound(s, rs[0]), rs[1..]);
    }
  }

  /**
   Repeat waiting until some job is due and claiming, with live heartbeats, crashes, failures, lost responses, stale
   workers and late requests in between, and after at most TotalRank rounds every job is SUCCEEDED or DEAD.
   */
  lemma SystemDrains(s: Sys, rs: seq<SysRound>, ids: seq<Uuid>)
    requires SysInv(s) && SysRoundsPossible(s, rs)
    requires forall id :: id in ids <==> id in s.db.jobs
    requires |rs| >= TotalRank(s.db.jobs, ids)
    ensures AfterSysRounds(s, rs).db.jobs.Keys == s.db.jobs.Keys
    ensures forall id :: id in s.db.jobs ==> Terminal(AfterSysRounds(s, rs).db.jobs[id])
  {
    var rounds := RoundsOfSystem(s, rs);
    Drains(s.db, rounds, ids);
  }

  /** And there is always a next round, after any rounds: no job is ever stuck. */
  lemma NextRoundExists(s: Sys, rs: seq<SysRound>) returns (r: SysRound)
    requires SysInv(s) && NoneStranded(s.db) && SysRoundsPossible(s, rs)
    ensures SysRoundPossible(AfterSysRounds(s, rs), r)
  {
    RoundsKeepSys(s, rs);
    RoundsStrandNone(s, rs);
    r := SysRoundExists(AfterSysRounds(s, rs));
  }

  lemma SysRoundExists(s: Sys) returns (r: SysRound)
    requires SysInv(s) && NoneStranded(s.db)
    ensures SysRoundPossible(s, r)
  {
    var round := RoundExists(s.db);
    r := SysRound(round.wait, round.limit, Claim(round.tokens, round.worker, round.lease, round.locked), []);
    assert ClaimDue(Apply(s.db, Tick(r.wait)), r);
  }
}
