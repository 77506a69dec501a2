/**
 Which rows one claim takes: of the claimable rows that no other transaction has locked, at most
 `limit`, first by next_attempt_at, then by created_at. Ties may fall either way.
 */
module Selection {
  import opened Core
  import opened Queue

  /** The ORDER BY of the claim; rows equal in both columns precede each other. */
  predicate Precedes(a: Job, b: Job) {
    a.nextAttemptAt < b.nextAttemptAt || (a.nextAttemptAt == b.nextAttemptAt && a.createdAt <= b.createdAt)
  }

  function ClaimableIds(db: Db): set<Uuid> {
    set id | id in db.jobs && Claimable(db.jobs[id], db.now)
  }

  /** `due` come first in the pool. */
  predicate Leads(jobs: map<Uuid, Job>, pool: set<Uuid>, due: set<Uuid>)
    requires pool <= jobs.Keys
  {
    due <= pool && forall x, y :: x in due && y in pool - due ==> Precedes(jobs[x], jobs[y])
  }

  predicate Selects(jobs: map<Uuid, Job>, pool: set<Uuid>, limit: nat, due: set<Uuid>)
    requires pool <= jobs.Keys
  {
    Leads(jobs, pool, due) && |due| == Min(limit, |pool|)
  }

  /** `due` are the first min(limit, number of them) claimable rows that are not locked elsewhere. */
  predicate Selected(db: Db, limit: nat, due: set<Uuid>, locked: set<Uuid>) {
    Selects(db.jobs, ClaimableIds(db) - locked, limit, due)
  }

  lemma LeadsOneMore(jobs: map<Uuid, Job>, pool: set<Uuid>, due: set<Uuid>, first: Uuid)
    requires pool <= jobs.Keys && Leads(jobs, pool, due)
    requires first in pool - due && forall y :: y in pool - due ==> Precedes(jobs[first], jobs[y])
    ensures Leads(jobs, pool, due + {first}) && pool - (due + {first}) == pool - due - {first}
    ensures |due + {first}| == |due| + 1
  {
  }

  lemma LeadsEnough(jobs: map<Uuid, Job>, pool: set<Uuid>, limit: nat, due: set<Uuid>)
    requires pool <= jobs.Keys && Leads(jobs, pool, due)
    requires |due| == limit || (|due| < limit && pool - due == {})
    ensures Selects(jobs, pool, limit, due)
  {
    Smaller(due, pool);
    if pool - due == {} {
      assert due == pool;
    }
  }

  /** Some row of a nonempty pool precedes all of it. */
  lemma {:induction false} FirstExists(jobs: map<Uuid, Job>, pool: set<Uuid>)
    requires pool != {} && pool <= jobs.Keys
    ensures exists x :: x in pool && forall y :: y in pool ==> Precedes(jobs[x], jobs[y])
    decreases |pool|
  {
    var a :| a in pool;
    if pool == {a} {
    } else {
      var rest := pool - {a};
      FirstExists(jobs, rest);
      var b :| b in rest && forall y :: y in rest ==> Precedes(jobs[b], jobs[y]);
      var first := if Precedes(jobs[a], jobs[b]) then a else b;
      assert forall y :: y in pool ==> y == a || y in rest;
      assert forall y :: y in pool ==> Precedes(jobs[first], jobs[y]);
    }
  }

  /** The ordered, limited selection exists for every table and every limit. */
  lemma {:induction false} SelectionExists(jobs: map<Uuid, Job>, pool: set<Uuid>, limit: nat)
    requires pool <= jobs.Keys
    ensures exists due :: Selects(jobs, pool, limit, due)
    decreases limit
  {
    if limit == 0 || pool == {} {
      assert Selects(jobs, pool, limit, {});
    } else {
      FirstExists(jobs, pool);
      var first :| first in pool && forall y :: y in pool ==> Precedes(jobs[first], jobs[y]);
      var rest := pool - {first};
      SelectionExists(jobs, rest, limit - 1);
      var due :| Selects(jobs, rest, limit - 1, due);
      assert |rest| == |pool| - 1;
      assert pool - (due + {first}) == rest - due;
      assert |due + {first}| == |due| + 1;
      assert Selects(jobs, pool, limit, due + {first});
    }
  }

  /** A claim leaves a claimable, unlocked row behind only if it is full of rows that precede it. */
  lemma LeftBehind(db: Db, limit: nat, due: set<Uuid>, locked: set<Uuid>, id: Uuid)
    requires Selected(db, limit, due, locked) && id in ClaimableIds(db) - locked && id !in due
    ensures |due| == limit
    ensures forall x :: x in due ==> Precedes(db.jobs[x], db.jobs[id])
  {
    if |due| == |ClaimableIds(db) - locked| {
      SameSize(due, ClaimableIds(db) - locked);
    }
  }

  lemma SameSize<T>(a: set<T>, b: set<T>)
    requires a <= b && |a| == |b|
    ensures a == b
  {
    if b - a != {} {
      var x :| x in b - a;
      Smaller(a, b - {x});
    } else {
      assert forall x :: x in b && x !in a ==> x in b - a;
    }
  }

  lemma {:induction false} Smaller<T>(a: set<T>, b: set<T>)
    requires a <= b
    ensures |a| <= |b|
    decreases |a|
  {
    if a != {} {
      var x :| x in a;
      Smaller(a - {x}, b - {x});
    }
  }
}
