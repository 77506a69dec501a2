/**
 The heartbeat renews a lease every third of its duration. If each round, sleep plus latency, is short
 enough, nobody can reclaim the job between its claim and the heartbeat's end, however long that is and
 whatever everybody else does to the database meanwhile.
 */
module Heartbeat {
  import opened Core
  import opened Config
  import opened Queue
  import opened Audit
  import opened Fencing
  import opened Store

  const MIN_INTERVAL: nat := 100

  /** A third of the lease, rounded down, but never below a tenth of a second. */
  function Interval(lease: nat): (r: nat)
    ensures r >= 100 && 3 * r + 2 >= lease
    ensures r > 100 ==> 3 * r <= lease
  {
    Max(lease / 3, MIN_INTERVAL)
  }

  /** Seen from the heartbeat: its own renewals, which may fail to reach the database, and everybody's events. */
  datatype Item = Other(e: Event) | Beat(reached: bool)

  datatype Lease = Lease(id: Uuid, token: Token, duration: nat)

  function EventOf(l: Lease, item: Item): Event {
    match item
    case Other(e) => e
    case Beat(reached) => if reached then Renew(l.id, l.token, l.duration) else Tick(0)
  }

  function Events(l: Lease, items: seq<Item>): seq<Event> {
    if items == [] then [] else [EventOf(l, items[0])] + Events(l, items[1..])
  }

  /** The worker itself does not finalize or renew meanwhile, and nobody else has its token. */
  predicate LeavesToken(l: Lease, item: Item) {
    item.Other? ==>
      && !(item.e.Finalize? && item.e.id == l.id && item.e.token == l.token)
      && !(item.e.Renew? && item.e.id == l.id && item.e.token == l.token)
  }

  /** In every state the last beat is at most one round old. */
  ghost predicate Punctual(db: Db, l: Lease, items: seq<Item>, round: nat, lastBeat: Time)
    requires Legal(db, Events(l, items))
    decreases |items|
  {
    && db.now <= lastBeat + round
    && (items == [] ||
        Punctual(Apply(db, EventOf(l, items[0])), l, items[1..], round, if items[0].Beat? then db.now else lastBeat))
  }

  /** Failed beats never add up: `since` bounds the age of the last renewal at the last beat. */
  predicate Tolerable(items: seq<Item>, round: nat, worst: nat, since: nat)
    decreases |items|
  {
    && since + round <= worst
    && (items == [] ||
        Tolerable(items[1..], round, worst,
                  if items[0].Other? then since else if items[0].reached then 0 else since + round))
  }

  predicate Live(db: Db, l: Lease, renewed: Time) {
    Held(db, l.id, l.token) && db.jobs[l.id].leaseExpiresAt == Some(renewed + l.duration) && db.now < renewed + l.duration
  }

  /** While a lease is live, no event but the worker's own takes the job or changes the lease. */
  lemma LiveStep(db: Db, l: Lease, item: Item, renewed: Time)
    requires Live(db, l, renewed) && Enabled(db, EventOf(l, item)) && LeavesToken(l, item)
    ensures EventOf(l, item).Claim? ==> l.id !in EventOf(l, item).tokens
    ensures var db' := Apply(db, EventOf(l, item)); var renewed' := if item == Beat(true) then db.now else renewed;
      && Held(db', l.id, l.token) && db'.jobs[l.id].leaseExpiresAt == Some(renewed' + l.duration)
      && db'.now >= db.now
  {
    match EventOf(l, item)
    case Claim(tokens, worker, lease, locked) => ClaimedJobs(db, tokens, worker, lease, locked);
    case Tick(_) =>
    case Insert(_, _, _) =>
    case Finalize(_, _, _) =>
    case Renew(_, _, _) =>
    case Replay(_, _) =>
  }

  lemma EventsSplit(db: Db, l: Lease, items: seq<Item>)
    requires items != [] && Legal(db, Events(l, items))
    ensures Enabled(db, EventOf(l, items[0])) && Legal(Apply(db, EventOf(l, items[0])), Events(l, items[1..]))
    ensures Exec(db, Events(l, items)) == Exec(Apply(db, EventOf(l, items[0])), Events(l, items[1..]))
  {
    assert Events(l, items)[1..] == Events(l, items[1..]);
  }

  /**
   If no stretch between successful renewals exceeds `worst` and `worst` is less than the lease, the lease
   is live throughout and no claim ever takes the job.
   */
  lemma {:induction false} Exclusive(db: Db, l: Lease, items: seq<Item>, round: nat, worst: nat, renewed: Time,
                                     lastBeat: Time, since: nat)
    returns (lastRenewed: Time)
    requires Legal(db, Events(l, items)) && forall item :: item in items ==> LeavesToken(l, item)
    requires Held(db, l.id, l.token) && db.jobs[l.id].leaseExpiresAt == Some(renewed + l.duration)
    requires Punctual(db, l, items, round, lastBeat) && Tolerable(items, round, worst, since)
    requires renewed <= lastBeat <= db.now && lastBeat <= renewed + since && worst < l.duration
    ensures forall item :: item in items && item.Other? && item.e.Claim? ==> l.id !in item.e.tokens
    ensures Live(Exec(db, Events(l, items)), l, lastRenewed)
    decreases |items|
  {
    assert Live(db, l, renewed);
    if items == [] {
      lastRenewed := renewed;
    } else {
      var item := items[0];
      EventsSplit(db, l, items);
      LiveStep(db, l, item, renewed);
      assert forall x :: x in items ==> x == item || x in items[1..];
      lastRenewed := Exclusive(Apply(db, EventOf(l, item)), l, items[1..], round, worst,
                if item == Beat(true) then db.now else renewed,
                if item.Beat? then db.now else lastBeat,
                if item.Other? then since else if item.reached then 0 else since + round);
    }
  }

  // --- What latencies are short enough ---

  lemma {:induction false} AllReachedTolerable(items: seq<Item>, round: nat)
    requires forall item :: item in items ==> item != Beat(false)
    ensures Tolerable(items, round, round, 0)
    decreases |items|
  {
    if items != [] {
      assert items[0] in items && forall item :: item in items[1..] ==> item in items;
      AllReachedTolerable(items[1..], round);
    }
  }

  /** Between two failed beats there is one that reached the database. */
  predicate NoTwoFailuresInARow(items: seq<Item>, failedBefore: bool)
    decreases |items|
  {
    items == [] ||
    (!(items[0] == Beat(false) && failedBefore) &&
     NoTwoFailuresInARow(items[1..], if items[0].Other? then failedBefore else !items[0].reached))
  }

  lemma {:induction false} SingleFailuresTolerable(items: seq<Item>, round: nat, failedBefore: bool)
    requires NoTwoFailuresInARow(items, failedBefore)
    ensures Tolerable(items, round, 2 * round, if failedBefore then round else 0)
    decreases |items|
  {
    if items != [] {
      SingleFailuresTolerable(items[1..], round, if items[0].Other? then failedBefore else !items[0].reached);
    }
  }

  /** A claim just made, then any run in which the heartbeat's rounds are late by at most `latency`. */
  ghost predicate Beating(db: Db, l: Lease, items: seq<Item>, latency: nat) {
    && Held(db, l.id, l.token) && db.jobs[l.id].leaseExpiresAt == Some(db.now + l.duration)
    && Legal(db, Events(l, items))
    && (forall item :: item in items ==> LeavesToken(l, item))
    && Punctual(db, l, items, Interval(l.duration) + latency, db.now)
  }

  predicate TakenByClaim(items: seq<Item>, id: Uuid) {
    exists item :: item in items && item.Other? && item.e.Claim? && id in item.e.tokens
  }

  /** If one round is shorter than the lease, no other worker reclaims the job before the heartbeat ends. */
  lemma NeverReclaimed(db: Db, l: Lease, items: seq<Item>, latency: nat)
    requires Beating(db, l, items, latency) && Interval(l.duration) + latency < l.duration
    requires Beat(false) !in items
    ensures !TakenByClaim(items, l.id) && Held(Exec(db, Events(l, items)), l.id, l.token)
  {
    var round := Interval(l.duration) + latency;
    AllReachedTolerable(items, round);
    var _ := Exclusive(db, l, items, round, round, db.now, db.now, 0);
  }

  /** If two rounds are shorter than the lease, any single failed renewal in a row is tolerated, for ever. */
  lemma NeverReclaimedDespiteFailures(db: Db, l: Lease, items: seq<Item>, latency: nat)
    requires Beating(db, l, items, latency) && 2 * (Interval(l.duration) + latency) < l.duration
    requires NoTwoFailuresInARow(items, false)
    ensures !TakenByClaim(items, l.id) && Held(Exec(db, Events(l, items)), l.id, l.token)
  {
    var round := Interval(l.duration) + latency;
    SingleFailuresTolerable(items, round, false);
    var _ := Exclusive(db, l, items, round, 2 * round, db.now, db.now, 0);
  }

  /** For a configured lease, which is whole seconds, those bounds are two thirds and a sixth of the lease. */
  lemma ConfiguredBounds(c: WorkerConfig, latency: nat)
    requires Validate(c).Ok? && c.leaseDuration % 1000 == 0
    ensures Interval(c.leaseDuration) + latency < c.leaseDuration <==> latency < c.leaseDuration - c.leaseDuration / 3
    ensures 6 * latency < c.leaseDuration ==> 2 * (Interval(c.leaseDuration) + latency) < c.leaseDuration
  {
    assert c.leaseDuration >= 1000;
  }

  /** A round as long as the lease lets the lease run out before a claim. */
  lemma ClaimWhenLate(db: Db, l: Lease, latency: nat, claim: Event) returns (items: seq<Item>)
    requires Beating(db, l, [], latency) && Interval(l.duration) + latency >= l.duration
    requires claim.Claim? && Enabled(Apply(db, Tick(l.duration)), claim)
    ensures Beating(db, l, items, latency) && Beat(false) !in items && Other(claim) in items
    ensures Exec(db, Events(l, items)) == Apply(Apply(db, Tick(l.duration)), claim)
  {
    var tick := Tick(l.duration);
    var late := Apply(db, tick);
    items := [Other(tick), Other(claim)];
    assert items[1..] == [Other(claim)];
    OneItem(late, l, claim, Interval(l.duration) + latency, db.now);
    ExecCons(db, tick, [claim]);
    assert Events(l, items) == [tick] + [claim];
    assert Events(l, items)[1..] == [claim];
  }

  lemma OneItem(db: Db, l: Lease, e: Event, round: nat, lastBeat: Time)
    requires Enabled(db, e) && e.Claim? && db.now <= lastBeat + round
    ensures Events(l, [Other(e)]) == [e] && Legal(db, [e]) && Exec(db, [e]) == Apply(db, e)
    ensures Punctual(db, l, [Other(e)], round, lastBeat)
  {
    assert [Other(e)][1..] == [];
    OneEvent(db, e);
  }

  /** Then another worker takes a job with budget. */
  lemma ReclaimedWhenLate(db: Db, l: Lease, latency: nat, token: Token) returns (items: seq<Item>)
    requires Beating(db, l, [], latency) && db.jobs[l.id].attempts < db.jobs[l.id].maxAttempts
    requires Interval(l.duration) + latency >= l.duration && token !in db.minted && token != l.token
    ensures Beating(db, l, items, latency) && Beat(false) !in items && TakenByClaim(items, l.id)
    ensures !Held(Exec(db, Events(l, items)), l.id, l.token)
  {
    var tokens: map<Uuid, Token> := map[l.id := token];
    var claim := Claim(tokens, 2, l.duration, {});
    var late := Apply(db, Tick(l.duration));
    ClaimTakes(late, tokens, l.id, l.token, l.duration);
    items := ClaimWhenLate(db, l, latency, claim);
  }

  lemma ClaimTakes(db: Db, tokens: map<Uuid, Token>, id: Uuid, token: Token, lease: nat)
    requires tokens.Keys == {id} && id in db.jobs && Claimable(db.jobs[id], db.now)
    requires tokens[id] !in db.minted && tokens[id] != token
    ensures Enabled(db, Claim(tokens, 2, lease, {})) && !Held(Apply(db, Claim(tokens, 2, lease, {})), id, token)
  {
    assert forall t :: t in tokens.Values ==> t == tokens[id];
    ClaimedJobs(db, tokens, 2, lease, {});
  }

  /** And on its last attempt the job is buried. */
  lemma BuriedWhenLate(db: Db, l: Lease, latency: nat) returns (items: seq<Item>)
    requires Beating(db, l, [], latency) && db.jobs[l.id].attempts >= db.jobs[l.id].maxAttempts
    requires Interval(l.duration) + latency >= l.duration
    ensures Beating(db, l, items, latency) && Beat(false) !in items
    ensures !Held(Exec(db, Events(l, items)), l.id, l.token)
  {
    var late := Apply(db, Tick(l.duration));
    EmptyClaimBuries(late, l.id, l.token, l.duration);
    items := ClaimWhenLate(db, l, latency, Claim(map[], 2, l.duration, {}));
  }

  lemma EmptyClaimBuries(db: Db, id: Uuid, token: Token, lease: nat)
    requires id in db.jobs && Exhausted(db.jobs[id], db.now)
    ensures Enabled(db, Claim(map[], 2, lease, {})) && !Held(Apply(db, Claim(map[], 2, lease, {})), id, token)
  {
    ClaimedJobs(db, map[], 2, lease, {});
  }

  /** The bound is exact: in every run the worker keeps its job if and only if one round is shorter than the lease. */
  lemma ExclusiveExactly(db: Db, l: Lease, latency: nat)
    requires Beating(db, l, [], latency)
    ensures Interval(l.duration) + latency < l.duration <==>
      forall items :: Beating(db, l, items, latency) && Beat(false) !in items ==> Held(Exec(db, Events(l, items)), l.id, l.token)
  {
    if Interval(l.duration) + latency < l.duration {
      forall items | Beating(db, l, items, latency) && Beat(false) !in items {
        NeverReclaimed(db, l, items, latency);
      }
    } else if db.jobs[l.id].attempts < db.jobs[l.id].maxAttempts {
      var token := AnUnusedToken(db.minted + {l.token});
      var items := ReclaimedWhenLate(db, l, latency, token);
    } else {
      var items := BuriedWhenLate(db, l, latency);
    }
  }

  /** Without any renewal: if the end of the run is within one round of the claim, so is every state. */
  lemma {:induction false} PunctualToTheEnd(db: Db, l: Lease, items: seq<Item>, round: nat, claimedAt: Time)
    requires Legal(db, Events(l, items)) && forall item :: item in items ==> item.Other?
    requires Exec(db, Events(l, items)).now <= claimedAt + round
    ensures Punctual(db, l, items, round, claimedAt)
    decreases |items|
  {
    TimeAdvances(db, Events(l, items));
    if items != [] {
      EventsSplit(db, l, items);
      assert items[0] in items && forall item :: item in items[1..] ==> item in items;
      PunctualToTheEnd(Apply(db, EventOf(l, items[0])), l, items[1..], round, claimedAt);
    }
  }

  lemma {:induction false} TimeAdvances(db: Db, es: seq<Event>)
    requires Legal(db, es)
    ensures db.now <= Exec(db, es).now
    decreases |es|
  {
    if es != [] {
      TimeAdvances(Apply(db, es[0]), es[1..]);
    }
  }

  /** Successive claims are disjoint while leases live: nobody claims a job again before its lease runs out. */
  lemma ClaimsDisjointWhileLive(db: Db, l: Lease, items: seq<Item>, round: nat)
    requires Held(db, l.id, l.token) && db.jobs[l.id].leaseExpiresAt == Some(db.now + l.duration)
    requires Legal(db, Events(l, items)) && forall item :: item in items ==> item.Other? && LeavesToken(l, item)
    requires Exec(db, Events(l, items)).now <= db.now + round && round < l.duration
    ensures forall item :: item in items && item.e.Claim? ==> l.id !in item.e.tokens
    ensures Held(Exec(db, Events(l, items)), l.id, l.token)
  {
    PunctualToTheEnd(db, l, items, round, db.now);
    AllReachedTolerable(items, round);
    var _ := Exclusive(db, l, items, round, round, db.now, db.now, 0);
  }

  // --- The heartbeat loop itself ---

  /** One round of the loop: how late the renewal ran, what others did before it, and whether the query succeeded. */
  datatype Round = Round(latency: nat, others: seq<Event>, ok: bool)

  function BeatOf(l: Lease, round: Round): Event {
    EventOf(l, Beat(round.ok))
  }

  function EventsOfRound(l: Lease, round: Round): seq<Event> {
    [Tick(Interval(l.duration) + round.latency)] + round.others + [BeatOf(l, round)]
  }

  /** What the rounds do to the database, interference included. */
  function RoundEvents(l: Lease, rounds: seq<Round>): seq<Event> {
    if rounds == [] then [] else EventsOfRound(l, rounds[0]) + RoundEvents(l, rounds[1..])
  }

  lemma {:induction false} RoundEventsJoin(l: Lease, first: seq<Round>, second: seq<Round>)
    ensures RoundEvents(l, first + second) == RoundEvents(l, first) + RoundEvents(l, second)
    decreases |first|
  {
    if first == [] {
      assert first + second == second;
    } else {
      RoundEventsJoin(l, first[1..], second);
      assert (first + second)[1..] == first[1..] + second && (first + second)[0] == first[0];
      Associative(EventsOfRound(l, first[0]), RoundEvents(l, first[1..]), RoundEvents(l, second));
    }
  }

  lemma Associative<T>(a: seq<T>, b: seq<T>, c: seq<T>)
    ensures a + (b + c) == a + b + c
  {
  }

  lemma RunsJoin(db: Db, first: seq<Event>, second: seq<Event>)
    requires Legal(db, first + second)
    ensures Legal(db, first) && Legal(Exec(db, first), second)
    ensures Exec(db, first + second) == Exec(Exec(db, first), second)
  {
    ExecSplit(db, first + second, |first|);
    assert (first + second)[..|first|] == first && (first + second)[|first|..] == second;
  }

  /** One round in its parts: sleep, interference, renewal. */
  lemma RoundInParts(db: Db, l: Lease, round: Round)
    requires Legal(db, EventsOfRound(l, round))
    ensures var slept := Apply(db, Tick(Interval(l.duration) + round.latency));
      && Legal(slept, round.others)
      && Exec(db, EventsOfRound(l, round)) == Apply(Exec(slept, round.others), BeatOf(l, round))
  {
    var slept := Apply(db, Tick(Interval(l.duration) + round.latency));
    var beat := BeatOf(l, round);
    assert EventsOfRound(l, round)[1..] == round.others + [beat];
    RunsJoin(slept, round.others, [beat]);
    OneEvent(Exec(slept, round.others), beat);
  }

  /** The state in which round i left the database. */
  ghost function AfterRounds(db: Db, l: Lease, rounds: seq<Round>, i: nat): Db
    requires i <= |rounds| && Legal(db, RoundEvents(l, rounds))
  {
    PrefixLegal(db, l, rounds, i);
    Exec(db, RoundEvents(l, rounds[..i]))
  }

  lemma PrefixLegal(db: Db, l: Lease, rounds: seq<Round>, i: nat)
    requires i <= |rounds| && Legal(db, RoundEvents(l, rounds))
    ensures Legal(db, RoundEvents(l, rounds[..i]))
    ensures Legal(Exec(db, RoundEvents(l, rounds[..i])), RoundEvents(l, rounds[i..]))
  {
    assert rounds == rounds[..i] + rounds[i..];
    RoundEventsJoin(l, rounds[..i], rounds[i..]);
    RunsJoin(db, RoundEvents(l, rounds[..i]), RoundEvents(l, rounds[i..]));
  }

  lemma OneMoreRound(db: Db, l: Lease, rounds: seq<Round>, i: nat)
    requires i < |rounds| && Legal(db, RoundEvents(l, rounds))
    ensures var before := AfterRounds(db, l, rounds, i); var es := EventsOfRound(l, rounds[i]);
      Legal(before, es) && AfterRounds(db, l, rounds, i + 1) == Exec(before, es)
  {
    var es := EventsOfRound(l, rounds[i]);
    assert RoundEvents(l, [rounds[i]]) == es by {
      assert [rounds[i]][1..] == [] && RoundEvents(l, []) == [] && es + [] == es;
    }
    assert rounds[..i + 1] == rounds[..i] + [rounds[i]];
    RoundEventsJoin(l, rounds[..i], [rounds[i]]);
    PrefixLegal(db, l, rounds, i + 1);
    RunsJoin(db, RoundEvents(l, rounds[..i]), es);
  }

  lemma NextRound(db: Db, l: Lease, rounds: seq<Round>, i: nat)
    requires i < |rounds| && Legal(db, RoundEvents(l, rounds))
    ensures var slept := Apply(AfterRounds(db, l, rounds, i), Tick(Interval(l.duration) + rounds[i].latency));
      && Legal(slept, rounds[i].others)
      && AfterRounds(db, l, rounds, i + 1) == Apply(Exec(slept, rounds[i].others), BeatOf(l, rounds[i]))
  {
    OneMoreRound(db, l, rounds, i);
    RoundInParts(AfterRounds(db, l, rounds, i), l, rounds[i]);
  }

  /**
   The loop, with anything else happening between its renewals: it runs round after round until aborted, and
   stops early exactly at the first renewal that reaches the database and finds the lease gone.
   */
  method RenewUntilAborted(store: Store, l: Lease, rounds: seq<Round>) returns (lost: bool, beats: nat)
    requires Legal(store.Db(), RoundEvents(l, rounds))
    modifies store
    ensures beats <= |rounds| && store.Db() == AfterRounds(old(store.Db()), l, rounds, beats)
    ensures lost ==> beats >= 1 && rounds[beats - 1].ok && !Held(store.Db(), l.id, l.token)
    ensures !lost ==> beats == |rounds|
    ensures forall i :: 0 <= i < beats && rounds[i].ok && !(lost && i == beats - 1) ==>
      Held(AfterRounds(old(store.Db()), l, rounds, i + 1), l.id, l.token)
  {
    lost, beats := false, 0;
    ghost var start := store.Db();
    assert rounds[..0] == [];
    while beats < |rounds|
      invariant !lost && beats <= |rounds| && store.Db() == AfterRounds(start, l, rounds, beats)
      invariant forall i :: 0 <= i < beats && rounds[i].ok ==> Held(AfterRounds(start, l, rounds, i + 1), l.id, l.token)
    {
      NextRound(start, l, rounds, beats);
      var held := OneBeat(store, l, rounds[beats]);
      beats := beats + 1;
      if rounds[beats - 1].ok && !held {
        lost := true;
        break;
      }
    }
  }

  /** The body of the loop: sleep, then renew if the query succeeds. */
  method OneBeat(store: Store, l: Lease, round: Round) returns (held: bool)
    requires Legal(Apply(store.Db(), Tick(Interval(l.duration) + round.latency)), round.others)
    modifies store
    ensures var seen := Exec(Apply(old(store.Db()), Tick(Interval(l.duration) + round.latency)), round.others);
      && store.Db() == Apply(seen, BeatOf(l, round))
      && (round.ok ==> held == Held(seen, l.id, l.token) == Held(store.Db(), l.id, l.token))
  {
    store.AdvanceClock(Interval(l.duration) + round.latency);
    store.OthersRun(round.others);
    held := true;
    if round.ok {
      held := store.RenewLease(l.id, l.token, l.duration);
    }
  }

  /** Once the loop could find its lease gone, it always will: a renewal that succeeds proves every earlier one did. */
  lemma LossIsFinal(db: Db, l: Lease, rounds: seq<Round>, i: nat, j: nat)
    requires Legal(db, RoundEvents(l, rounds)) && l.token in db.minted && i <= j <= |rounds|
    requires Held(AfterRounds(db, l, rounds, j), l.id, l.token)
    ensures Held(AfterRounds(db, l, rounds, i), l.id, l.token)
  {
    PrefixLegal(db, l, rounds, j);
    assert rounds[..j][..i] == rounds[..i] && rounds[..j] == rounds[..i] + rounds[..j][i..];
    RoundEventsJoin(l, rounds[..i], rounds[..j][i..]);
    RunsJoin(db, RoundEvents(l, rounds[..i]), RoundEvents(l, rounds[..j][i..]));
    TokenRun(db, RoundEvents(l, rounds[..i]), l.id, l.token);
    TokenRun(AfterRounds(db, l, rounds, i), RoundEvents(l, rounds[..j][i..]), l.id, l.token);
  }
}
