/**
 Keyset pagination by (created_at, id): a client follows next_cursor from page to page, while the table
 may change between pages. A listed row is identified by its key.
 */
module Pagination {
  import opened Core
  import opened Queue
  import opened Audit
  import opened Selection

  datatype Key = Key(createdAt: Time, id: Uuid)

  /** Row comparison of (created_at, id). */
  predicate Less(a: Key, b: Key) {
    a.createdAt < b.createdAt || (a.createdAt == b.createdAt && a.id < b.id)
  }

  /** The rows of the table under the status filter. */
  function Rows(jobs: map<Uuid, Job>, status: Option<Status>): set<Key> {
    set id | id in jobs && (status.Some? ==> jobs[id].status == status.value) :: Key(jobs[id].createdAt, id)
  }

  function Beyond(keys: set<Key>, after: Option<Key>): set<Key> {
    set k | k in keys && (after.Some? ==> Less(after.value, k))
  }

  // --- ORDER BY and LIMIT ---

  predicate IsLeast(keys: set<Key>, x: Key) {
    x in keys && forall y :: y in keys && y != x ==> Less(x, y)
  }

  lemma {:induction false} LeastExists(keys: set<Key>)
    requires keys != {}
    ensures exists x :: IsLeast(keys, x)
    decreases |keys|
  {
    var a :| a in keys;
    var rest := keys - {a};
    if rest == {} {
      assert keys == {a};
      assert IsLeast(keys, a);
    } else {
      LeastExists(rest);
      var b :| IsLeast(rest, b);
      assert forall y :: y in keys ==> y == a || y in rest;
      assert IsLeast(keys, if Less(a, b) then a else b);
    }
  }

  ghost function Least(keys: set<Key>): (x: Key)
    requires keys != {}
    ensures IsLeast(keys, x)
  {
    LeastExists(keys);
    var x :| IsLeast(keys, x);
    x
  }

  ghost function Sorted(keys: set<Key>): (s: seq<Key>)
    ensures |s| == |keys|
    ensures forall k :: k in s <==> k in keys
    decreases |keys|
  {
    if keys == {} then [] else [Least(keys)] + Sorted(keys - {Least(keys)})
  }

  lemma ConsTail(x: Key, s: seq<Key>, k: nat)
    requires 1 <= k <= |s| + 1
    ensures ([x] + s)[k..] == s[k - 1..]
    ensures ([x] + s)[k - 1] == if k == 1 then x else s[k - 2]
  {
  }

  /** The sorted list is what ORDER BY means: every earlier row is less than every later one. */
  lemma {:induction false} SortedIsOrdered(keys: set<Key>, i: nat, j: nat)
    requires i < j < |keys|
    ensures Less(Sorted(keys)[i], Sorted(keys)[j])
    decreases |keys|
  {
    var least := Least(keys);
    var tail := Sorted(keys - {least});
    assert Sorted(keys) == [least] + tail;
    LaterInTail(least, tail, j);
    if i == 0 {
      assert tail[j - 1] in keys - {least};
    } else {
      LaterInTail(least, tail, i);
      SortedIsOrdered(keys - {least}, i - 1, j - 1);
    }
  }

  lemma LaterInTail(x: Key, tail: seq<Key>, i: nat)
    requires 1 <= i <= |tail|
    ensures ([x] + tail)[i] == tail[i - 1]
  {
  }

  /** In the listing creation times rise, and ids rise among equal creation times. */
  lemma ListedLexicographically(keys: set<Key>, i: nat, j: nat)
    requires i < j < |keys|
    ensures var a, b := Sorted(keys)[i], Sorted(keys)[j];
      a.createdAt < b.createdAt || (a.createdAt == b.createdAt && a.id < b.id)
  {
    SortedIsOrdered(keys, i, j);
  }

  ghost function Page(keys: set<Key>, limit: nat, after: Option<Key>): seq<Key> {
    var all := Sorted(Beyond(keys, after));
    all[..Min(limit, |all|)]
  }

  /** A full page has a cursor, its last row; a short page is the end. */
  ghost function NextCursor(keys: set<Key>, limit: nat, after: Option<Key>): Option<Key>
    requires limit >= 1
  {
    var page := Page(keys, limit, after);
    if |page| == limit then Some(page[limit - 1]) else None
  }

  /** The listed rows: every job with the wanted status, or every job, under its own creation time and id. */
  lemma RowsExactly(jobs: map<Uuid, Job>, status: Option<Status>, k: Key)
    ensures k in Rows(jobs, status) <==>
      k.id in jobs && jobs[k.id].createdAt == k.createdAt && (status == None || status == Some(jobs[k.id].status))
  {
    assert k == Key(k.createdAt, k.id);
  }

  lemma PrefixOfSorted(due: set<Key>, n: nat)
    requires n <= |due|
    ensures var page := Sorted(due)[..n];
      && (forall k :: k in page ==> k in due)
      && (forall i, j :: 0 <= i < j < |page| ==> Less(page[i], page[j]))
      && (forall k :: k in due && k !in page ==> n < |due| && forall i :: 0 <= i < |page| ==> Less(page[i], k))
  {
    var all := Sorted(due);
    forall i, j | 0 <= i < j < |all| ensures Less(all[i], all[j]) {
      SortedIsOrdered(due, i, j);
    }
    assert forall i :: 0 <= i < n ==> all[i] in all[..n];
    forall k | k in due && k !in all[..n] ensures n < |due| && forall i :: 0 <= i < n ==> Less(all[i], k) {
      var m :| 0 <= m < |all| && all[m] == k;
      assert m >= n;
    }
  }

  /**
   One page: rows after the cursor, at most `limit` of them, in order; a row after the cursor is missing only from a
   full page, all of whose rows come before it. A full page, and only that, has a cursor: its last row.
   */
  lemma PageExactly(keys: set<Key>, limit: nat, after: Option<Key>)
    requires limit >= 1
    ensures var page := Page(keys, limit, after);
      && |page| <= limit
      && (forall k :: k in page ==> k in Beyond(keys, after))
      && (forall i, j :: 0 <= i < j < |page| ==> Less(page[i], page[j]))
      && (forall k :: k in Beyond(keys, after) && k !in page ==>
            |page| == limit && forall i :: 0 <= i < |page| ==> Less(page[i], k))
      && NextCursor(keys, limit, after) == if |page| == limit then Some(page[|page| - 1]) else None
  {
    PrefixOfSorted(Beyond(keys, after), Min(limit, |Beyond(keys, after)|));
  }

  /** After the cursor: later creation time, or the same and a greater id. */
  lemma BeyondExactly(keys: set<Key>, after: Option<Key>, k: Key)
    ensures k in Beyond(keys, after) <==>
      && k in keys
      && (after.Some? ==>
            k.createdAt > after.value.createdAt || (k.createdAt == after.value.createdAt && k.id > after.value.id))
  {
  }

  lemma BeyondLeast(keys: set<Key>)
    requires keys != {}
    ensures Beyond(keys, Some(Least(keys))) == keys - {Least(keys)}
  {
  }

  lemma BeyondLater(keys: set<Key>, x: Key)
    requires keys != {} && x in keys - {Least(keys)}
    ensures Beyond(keys, Some(x)) == Beyond(keys - {Least(keys)}, Some(x))
  {
  }

  /** What follows the k-th row of a sorted list is the sorted list of the rows beyond it. */
  lemma {:induction false} SortedBeyond(keys: set<Key>, k: nat)
    requires 1 <= k <= |keys|
    ensures Sorted(keys)[k..] == Sorted(Beyond(keys, Some(Sorted(keys)[k - 1])))
    decreases k
  {
    var least := Least(keys);
    var tail := Sorted(keys - {least});
    assert Sorted(keys) == [least] + tail;
    ConsTail(least, tail, k);
    if k == 1 {
      BeyondLeast(keys);
    } else {
      SortedBeyond(keys - {least}, k - 1);
      assert tail[k - 2] in keys - {least};
      BeyondLater(keys, tail[k - 2]);
    }
  }

  lemma BeyondTwice(keys: set<Key>, after: Option<Key>, x: Key)
    requires x in Beyond(keys, after)
    ensures Beyond(keys, Some(x)) == Beyond(Beyond(keys, after), Some(x)) && x !in Beyond(keys, Some(x))
    ensures Beyond(keys, Some(x)) <= Beyond(keys, after)
  {
  }

  lemma SplitAt(keys: set<Key>, k: nat)
    requires 1 <= k <= |keys|
    ensures Sorted(keys)[k - 1] in keys
    ensures Sorted(keys) == Sorted(keys)[..k] + Sorted(Beyond(keys, Some(Sorted(keys)[k - 1])))
  {
    SortedBeyond(keys, k);
    assert Sorted(keys) == Sorted(keys)[..k] + Sorted(keys)[k..];
  }

  lemma FewerBeyond(keys: set<Key>, x: Key)
    requires x in keys
    ensures |Beyond(keys, Some(x))| < |keys|
  {
    assert Beyond(keys, Some(x)) <= keys - {x};
    Smaller(Beyond(keys, Some(x)), keys - {x});
  }

  /** After a full page, what matches next is what follows the page in the sorted list. */
  lemma AfterFullPage(keys: set<Key>, limit: nat, after: Option<Key>)
    requires limit >= 1 && NextCursor(keys, limit, after).Some?
    ensures var due := Beyond(keys, after); var later := Beyond(keys, NextCursor(keys, limit, after));
      && later <= due && |later| < |due| && Sorted(due) == Page(keys, limit, after) + Sorted(later)
  {
    var due := Beyond(keys, after);
    SplitAt(due, limit);
    BeyondTwice(keys, after, Sorted(due)[limit - 1]);
    FewerBeyond(due, Sorted(due)[limit - 1]);
  }

  /** All pages of a fixed table, following the cursor to the end. */
  ghost function Walk(keys: set<Key>, limit: nat, after: Option<Key>): seq<Key>
    requires limit >= 1
    decreases |Beyond(keys, after)|
  {
    var cursor := NextCursor(keys, limit, after);
    if cursor.None? then Page(keys, limit, after)
    else
      AfterFullPage(keys, limit, after);
      Page(keys, limit, after) + Walk(keys, limit, cursor)
  }

  lemma {:induction false} WalkIsSorted(keys: set<Key>, limit: nat, after: Option<Key>)
    requires limit >= 1
    ensures Walk(keys, limit, after) == Sorted(Beyond(keys, after))
    decreases |Beyond(keys, after)|
  {
    var cursor := NextCursor(keys, limit, after);
    if cursor.Some? {
      AfterFullPage(keys, limit, after);
      WalkIsSorted(keys, limit, cursor);
    }
  }

  /** On a fixed table the walk ends, and the pages joined together are the whole filtered table in order. */
  lemma WalkIsWholeTable(jobs: map<Uuid, Job>, status: Option<Status>, limit: nat)
    requires limit >= 1
    ensures Walk(Rows(jobs, status), limit, None) == Sorted(Rows(jobs, status))
  {
    WalkIsSorted(Rows(jobs, status), limit, None);
    assert Beyond(Rows(jobs, status), None) == Rows(jobs, status);
  }

  // --- A table that changes between pages ---

  /** Jobs are only added, and keep their creation time; their status may change at will. */
  ghost predicate Grows(jobs: map<Uuid, Job>, jobs': map<Uuid, Job>) {
    forall id :: id in jobs ==> id in jobs' && jobs'[id].createdAt == jobs[id].createdAt
  }

  /** Every run of queue transactions changes the jobs table in this way, so the unfiltered rows only grow. */
  lemma {:induction false} RunsGrow(db: Db, es: seq<Event>)
    requires Legal(db, es)
    ensures Grows(db.jobs, Exec(db, es).jobs)
    decreases |es|
  {
    if es != [] {
      match es[0] {
        case Claim(tokens, worker, lease, locked) => ClaimedJobs(db, tokens, worker, lease, locked);
        case _ =>
      }
      RunsGrow(Apply(db, es[0]), es[1..]);
    }
  }

  lemma RowsGrow(jobs: map<Uuid, Job>, jobs': map<Uuid, Job>)
    requires Grows(jobs, jobs')
    ensures Rows(jobs, None) <= Rows(jobs', None)
  {
    forall k | k in Rows(jobs, None) ensures k in Rows(jobs', None) {
      assert k.id in jobs && k == Key(jobs'[k.id].createdAt, k.id);
    }
  }

  /** The pages read, one per state of the table, until the cursor ends or the states do. */
  ghost function ChangingWalk(tables: seq<set<Key>>, limit: nat, after: Option<Key>): seq<Key>
    requires limit >= 1
  {
    if tables == [] then []
    else
      var cursor := NextCursor(tables[0], limit, after);
      Page(tables[0], limit, after) + if cursor.None? then [] else ChangingWalk(tables[1..], limit, cursor)
  }

  /** The walk came to a short page. */
  ghost predicate Ends(tables: seq<set<Key>>, limit: nat, after: Option<Key>)
    requires limit >= 1
  {
    tables != [] &&
    (NextCursor(tables[0], limit, after).None? || Ends(tables[1..], limit, NextCursor(tables[0], limit, after)))
  }

  ghost predicate KeepsGrowing(tables: seq<set<Key>>) {
    forall i, j :: 0 <= i <= j < |tables| ==> tables[i] <= tables[j]
  }

  lemma {:induction false} SortedCounts(keys: set<Key>, k: Key)
    ensures multiset(Sorted(keys))[k] == if k in keys then 1 else 0
    decreases |keys|
  {
    if keys != {} {
      SortedCounts(keys - {Least(keys)}, k);
    }
  }

  /** A row the page should start from is on the page once, or beyond the page's cursor. */
  lemma PageCounts(keys: set<Key>, limit: nat, after: Option<Key>, k: Key)
    requires limit >= 1
    ensures var cursor := NextCursor(keys, limit, after);
      var due := k in Beyond(keys, after);
      var later := cursor.Some? && k in Beyond(keys, cursor);
      && (later ==> due)
      && multiset(Page(keys, limit, after))[k] == if due && !later then 1 else 0
  {
    var due := Beyond(keys, after);
    SortedCounts(due, k);
    if NextCursor(keys, limit, after).Some? {
      AfterFullPage(keys, limit, after);
      SortedCounts(Beyond(keys, NextCursor(keys, limit, after)), k);
    } else {
      assert Sorted(due)[..|due|] == Sorted(due);
    }
  }

  lemma {:induction false} CountsOverChanges(tables: seq<set<Key>>, limit: nat, after: Option<Key>, k: Key)
    requires limit >= 1 && KeepsGrowing(tables) && Ends(tables, limit, after) && k in tables[0]
    ensures multiset(ChangingWalk(tables, limit, after))[k] == if k in Beyond(tables[0], after) then 1 else 0
    decreases |tables|
  {
    var cursor := NextCursor(tables[0], limit, after);
    PageCounts(tables[0], limit, after, k);
    if cursor.Some? {
      var rest := tables[1..];
      assert tables[0] <= tables[1];
      forall i, j | 0 <= i <= j < |rest| ensures rest[i] <= rest[j] {
        assert tables[i + 1] <= tables[j + 1];
      }
      CountsOverChanges(rest, limit, cursor, k);
    }
  }

  /** Between one page and the next, any run of queue transactions. */
  ghost predicate LegalRuns(db: Db, runs: seq<seq<Event>>)
    decreases |runs|
  {
    runs == [] || (Legal(db, runs[0]) && LegalRuns(Exec(db, runs[0]), runs[1..]))
  }

  /** The unfiltered rows at each page. */
  ghost function Listings(db: Db, runs: seq<seq<Event>>): (tables: seq<set<Key>>)
    requires LegalRuns(db, runs)
    ensures |tables| == |runs| + 1 && tables[0] == Rows(db.jobs, None)
    decreases |runs|
  {
    [Rows(db.jobs, None)] + if runs == [] then [] else Listings(Exec(db, runs[0]), runs[1..])
  }

  lemma {:induction false} ListingsGrow(db: Db, runs: seq<seq<Event>>)
    requires LegalRuns(db, runs)
    ensures KeepsGrowing(Listings(db, runs))
    decreases |runs|
  {
    var tables := Listings(db, runs);
    if runs != [] {
      var next := Exec(db, runs[0]);
      var rest := Listings(next, runs[1..]);
      RunsGrow(db, runs[0]);
      RowsGrow(db.jobs, next.jobs);
      ListingsGrow(next, runs[1..]);
      forall i, j | 0 <= i <= j < |tables| ensures tables[i] <= tables[j] {
        if i >= 1 {
          assert rest[i - 1] <= rest[j - 1];
        } else if j >= 1 {
          assert rest[0] <= rest[j - 1];
        }
      }
    }
  }

  /**
   Without a status filter, under any run of queue transactions between pages: when the walk ends, every row
   that was in the table at the first page has been listed exactly once.
   */
  lemma EachRowExactlyOnce(db: Db, runs: seq<seq<Event>>, limit: nat, id: Uuid)
    requires limit >= 1 && LegalRuns(db, runs) && Ends(Listings(db, runs), limit, None) && id in db.jobs
    ensures multiset(ChangingWalk(Listings(db, runs), limit, None))[Key(db.jobs[id].createdAt, id)] == 1
  {
    var k := Key(db.jobs[id].createdAt, id);
    ListingsGrow(db, runs);
    assert k in Rows(db.jobs, None) && k in Beyond(Listings(db, runs)[0], None);
    CountsOverChanges(Listings(db, runs), limit, None, k);
  }
}
