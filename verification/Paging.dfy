/**
 Keyset pagination: backend/internal/codes/repository.go (List) and service.go (List), and walks that follow the
 cursors from page to page while the tables change underneath.
 */
module Paging {
  import opened Basics
  import opened Cursor
  import opened Tables

  const DEFAULT_LIST_LIMIT := 20
  const MAX_LIST_LIMIT := 100

  function KeyOf(id: Uuid, row: CodeRow): Key { Key(row.createdAt, id) }

  function UserKeys(db: Db, user: Uuid): set<Key> {
    set id | id in db.codes && db.codes[id].user == user :: KeyOf(id, db.codes[id])
  }

  /** ORDER BY created_at DESC, id DESC, without ties. */
  predicate Descending(keys: seq<Key>) {
    forall i, j :: 0 <= i < j < |keys| ==> Before(keys[j], keys[i])
  }

  function Members(keys: seq<Key>): set<Key> {
    set k | k in keys
  }

  predicate IsNewest(s: set<Key>, k: Key) {
    k in s && forall j <- s :: j == k || Before(j, k)
  }

  lemma NewestExists(s: set<Key>)
    requires s != {}
    ensures exists k :: IsNewest(s, k)
    decreases |s|
  {
    var k :| k in s;
    if s - {k} != {} {
      NewestExists(s - {k});
      var m :| IsNewest(s - {k}, m);
      forall j | j in s && j != k ensures j == m || Before(j, m) {
        assert j in s - {k};
      }
      if Before(m, k) {
        assert IsNewest(s, k);
      } else {
        assert IsNewest(s, m);
      }
    } else {
      forall j | j in s ensures j == k {
        assert j !in s - {k};
      }
      assert IsNewest(s, k);
    }
  }

  function Newest(s: set<Key>): (k: Key)
    requires s != {}
    ensures IsNewest(s, k)
  {
    NewestExists(s);
    var k :| IsNewest(s, k);
    k
  }

  /** The rows of a query in the order Postgres returns them. */
  function Sorted(s: set<Key>): (keys: seq<Key>)
    ensures |keys| == |s|
    decreases |s|
  {
    if s == {} then [] else [Newest(s)] + Sorted(s - {Newest(s)})
  }

  lemma ConsSorted(k: Key, rest: seq<Key>, s: set<Key>)
    requires IsNewest(s, k) && Descending(rest) && Members(rest) == s - {k}
    ensures Descending([k] + rest) && Members([k] + rest) == s
  {
    var keys := [k] + rest;
    forall i, j | 0 <= i < j < |keys| ensures Before(keys[j], keys[i]) {
      if i == 0 {
        assert rest[j - 1] in Members(rest);
      } else {
        assert Before(rest[j - 1], rest[i - 1]);
      }
    }
    assert Members(keys) == {k} + Members(rest);
  }

  lemma {:induction false} SortedIs(s: set<Key>)
    ensures Descending(Sorted(s)) && Members(Sorted(s)) == s
    decreases |s|
  {
    if s != {} {
      var k := Newest(s);
      SortedIs(s - {k});
      ConsSorted(k, Sorted(s - {k}), s);
    }
  }

  /** There is only one way to list a set newest first. */
  lemma {:induction false} DescendingUnique(a: seq<Key>, b: seq<Key>)
    requires Descending(a) && Descending(b) && Members(a) == Members(b)
    ensures a == b
  {
    if b != [] {
      assert b[0] in Members(b);
    }
    if a != [] {
      assert a[0] in Members(a);
      assert b != [];
      assert a[0] in b && b[0] in a;
      assert a[0] == b[0];
      forall k ensures k in Members(a[1..]) <==> k in Members(a) && k != a[0] {}
      forall k ensures k in Members(b[1..]) <==> k in Members(b) && k != b[0] {}
      DescendingUnique(a[1..], b[1..]);
      assert a == [a[0]] + a[1..] && b == [b[0]] + b[1..];
    }
  }

  /** The rows after a cursor; all of them when there is none. */
  function Remaining(s: set<Key>, cur: Option<Key>): set<Key> {
    set k | k in s && (cur.Some? ==> Before(k, cur.value))
  }

  function Take(keys: seq<Key>, n: nat): seq<Key> {
    if n < |keys| then keys[..n] else keys
  }

  /** One page: the newest limit rows after the cursor. */
  function Page(db: Db, user: Uuid, cur: Option<Key>, limit: nat): seq<Key> {
    Take(Sorted(Remaining(UserKeys(db, user), cur)), limit)
  }

  /** The cursor for the next page: the last row of this one, if there are rows beyond it. */
  function Next(db: Db, user: Uuid, cur: Option<Key>, limit: nat): Option<Key>
    requires limit > 0
  {
    var rest := Sorted(Remaining(UserKeys(db, user), cur));
    if |rest| > limit then Some(rest[limit - 1]) else None
  }

  /** The rows after the n-th of a sorted list are the rest of that list. */
  lemma SortedSplit(s: set<Key>, n: nat)
    requires 0 < n <= |s|
    ensures var keys := Sorted(s);
            Sorted(Remaining(s, Some(keys[n - 1]))) == keys[n..]
  {
    var keys := Sorted(s);
    SortedIs(s);
    DropMembers(keys, n, s);
    SortedIs(Remaining(s, Some(keys[n - 1])));
    DescendingUnique(Sorted(Remaining(s, Some(keys[n - 1]))), keys[n..]);
  }

  lemma DropMembers(keys: seq<Key>, n: nat, s: set<Key>)
    requires 0 < n <= |keys| && Descending(keys) && Members(keys) == s
    ensures Descending(keys[n..])
    ensures Members(keys[n..]) == Remaining(s, Some(keys[n - 1]))
    ensures Members(keys[..n]) == s - Remaining(s, Some(keys[n - 1]))
    ensures forall k <- keys[..n] :: k == keys[n - 1] || Before(keys[n - 1], k)
  {
    var last := keys[n - 1];
    forall i | 0 <= i < |keys| ensures keys[i] in s && (Before(keys[i], last) <==> i >= n) {
      assert keys[i] in Members(keys);
    }
    forall k ensures k in Members(keys[n..]) <==> k in s && Before(k, last) {
      if k in s && Before(k, last) {
        var i :| 0 <= i < |keys| && keys[i] == k;
        assert keys[n..][i - n] == k;
      }
    }
    forall k ensures k in Members(keys[..n]) <==> k in s && !Before(k, last) {
      if k in s && !Before(k, last) {
        var i :| 0 <= i < |keys| && keys[i] == k;
        assert keys[..n][i] == k;
      }
    }
  }

  lemma RemainingTwice(s: set<Key>, cur: Option<Key>, next: Key)
    requires cur.Some? ==> Before(next, cur.value)
    ensures Remaining(Remaining(s, cur), Some(next)) == Remaining(s, Some(next))
  {
  }

  /** Cutting a sorted set after limit rows: what stays, what is left, and the row they meet at. */
  lemma CutExact(all: set<Key>, limit: nat)
    requires 0 < limit < |all|
    ensures var keys := Sorted(all); var last := keys[limit - 1]; var later := Remaining(all, Some(last));
            && last in all && later != {} && keys[limit..] == Sorted(later)
            && Descending(keys[..limit]) && Members(keys[..limit]) == all - later
            && forall k <- keys[..limit] :: k == last || Before(last, k)
  {
    var keys := Sorted(all);
    SortedIs(all);
    SortedSplit(all, limit);
    DropMembers(keys, limit, all);
    assert keys[limit - 1] in Members(keys);
    assert |Sorted(Remaining(all, Some(keys[limit - 1])))| > 0;
  }

  /** A page is in order, holds user's rows after the cursor, and leaves out only rows that follow its own cursor. */
  lemma PageExact(db: Db, user: Uuid, cur: Option<Key>, limit: nat)
    requires limit > 0
    ensures var page, next := Page(db, user, cur, limit), Next(db, user, cur, limit);
            && Descending(page) && |page| <= limit
            && (next.Some? ==> |page| == limit && page[limit - 1] == next.value)
            && Members(page) == Remaining(UserKeys(db, user), cur)
                                - (if next.Some? then Remaining(UserKeys(db, user), next) else {})
            && (next.Some? ==> Remaining(UserKeys(db, user), next) != {}
                               && (cur.Some? ==> Before(next.value, cur.value))
                               && forall k <- page :: k == next.value || Before(next.value, k))
  {
    var all := Remaining(UserKeys(db, user), cur);
    SortedIs(all);
    if |all| > limit {
      CutExact(all, limit);
      RemainingTwice(UserKeys(db, user), cur, Sorted(all)[limit - 1]);
    }
  }

  /** The pages a client sees that follows the cursors, the n-th request being answered from snapshots[n]. */
  function Walk(snapshots: seq<Db>, user: Uuid, cur: Option<Key>, limit: nat): seq<seq<Key>>
    requires limit > 0
  {
    if snapshots == [] then []
    else
      var page := Page(snapshots[0], user, cur, limit);
      match Next(snapshots[0], user, cur, limit)
      case None => [page]
      case Some(next) => [page] + Walk(snapshots[1..], user, Some(next), limit)
  }

  /** The walk comes to a page without a cursor. */
  predicate Ends(snapshots: seq<Db>, user: Uuid, cur: Option<Key>, limit: nat)
    requires limit > 0
  {
    snapshots != [] &&
    match Next(snapshots[0], user, cur, limit)
    case None => true
    case Some(next) => Ends(snapshots[1..], user, Some(next), limit)
  }

  function Flatten(pages: seq<seq<Key>>): seq<Key> {
    if pages == [] then [] else pages[0] + Flatten(pages[1..])
  }

  predicate AllBelow(keys: seq<Key>, cur: Option<Key>) {
    cur.Some? ==> forall k <- keys :: Before(k, cur.value)
  }

  lemma JoinDescending(page: seq<Key>, last: Key, rest: seq<Key>)
    requires Descending(page) && Descending(rest)
    requires forall k <- page :: k == last || Before(last, k)
    requires forall k <- rest :: Before(k, last)
    ensures Descending(page + rest)
  {
    var all := page + rest;
    forall i, j | 0 <= i < j < |all| ensures Before(all[j], all[i]) {
      if i < |page| <= j {
        assert all[i] in page && all[j] in rest;
      }
    }
  }

  /** Whatever happens between pages, the walk never goes back: its keys strictly descend. */
  lemma {:induction false} WalkDescends(snapshots: seq<Db>, user: Uuid, cur: Option<Key>, limit: nat)
    requires limit > 0
    ensures var keys := Flatten(Walk(snapshots, user, cur, limit)); Descending(keys) && AllBelow(keys, cur)
  {
    if snapshots != [] {
      var page, next := Page(snapshots[0], user, cur, limit), Next(snapshots[0], user, cur, limit);
      PageExact(snapshots[0], user, cur, limit);
      assert forall k <- page :: k in Members(page);
      if next.Some? {
        WalkDescends(snapshots[1..], user, next, limit);
        var pages := Walk(snapshots, user, cur, limit);
        assert pages[1..] == Walk(snapshots[1..], user, next, limit);
        JoinDescending(page, next.value, Flatten(pages[1..]));
      } else {
        assert Flatten([page]) == page;
      }
    }
  }

  /** A code that is there for every request of a walk that ends is on some page. */
  lemma {:induction false} WalkFinds(snapshots: seq<Db>, user: Uuid, cur: Option<Key>, limit: nat, k: Key)
    requires limit > 0 && Ends(snapshots, user, cur, limit)
    requires forall db <- snapshots :: k in UserKeys(db, user)
    requires cur.Some? ==> Before(k, cur.value)
    ensures k in Flatten(Walk(snapshots, user, cur, limit))
  {
    var page, next := Page(snapshots[0], user, cur, limit), Next(snapshots[0], user, cur, limit);
    PageExact(snapshots[0], user, cur, limit);
    assert k in UserKeys(snapshots[0], user);
    if k in Members(page) {
      assert Flatten(Walk(snapshots, user, cur, limit))[..|page|] == page;
    } else {
      WalkFinds(snapshots[1..], user, next, limit, k);
    }
  }

  /** Writes in sequence. */
  function ApplyAll(db: Db, writes: seq<Write>): Db
    decreases |writes|
  {
    if writes == [] then db else ApplyAll(Apply(db, writes[0]), writes[1..])
  }

  /** Between requests the tables change by the repository's statements. */
  predicate Evolves(snapshots: seq<Db>, between: seq<seq<Write>>) {
    && |between| + 1 == |snapshots|
    && forall i :: 0 <= i < |between| ==> snapshots[i + 1] == ApplyAll(snapshots[i], between[i])
  }

  /** later may have lost codes of db or gained new ones, but what both have is the same code. */
  predicate SameCodes(db: Db, later: Db) {
    && db.issued <= later.issued
    && forall id :: id in db.issued && id in later.codes ==>
                      id in db.codes && later.codes[id].createdAt == db.codes[id].createdAt
  }

  lemma {:induction false} ApplyAllSame(db: Db, writes: seq<Write>)
    ensures SameCodes(db, ApplyAll(db, writes))
    decreases |writes|
  {
    if writes != [] {
      ApplyAllSame(Apply(db, writes[0]), writes[1..]);
    }
  }

  lemma {:induction false} EvolvedSame(snapshots: seq<Db>, between: seq<seq<Write>>, i: nat, j: nat)
    requires Evolves(snapshots, between) && i <= j < |snapshots|
    ensures SameCodes(snapshots[i], snapshots[j])
    decreases j
  {
    if i < j {
      EvolvedSame(snapshots, between, i, j - 1);
      ApplyAllSame(snapshots[j - 1], between[j - 1]);
    }
  }

  lemma PageSource(db: Db, user: Uuid, cur: Option<Key>, limit: nat, k: Key)
    requires limit > 0 && k in Page(db, user, cur, limit)
    ensures k in UserKeys(db, user)
  {
    PageExact(db, user, cur, limit);
    assert k in Members(Page(db, user, cur, limit));
  }

  /** A key of a walk is on its first page or in the walk that goes on from there. */
  lemma WalkSplit(snapshots: seq<Db>, user: Uuid, cur: Option<Key>, limit: nat, k: Key)
    requires limit > 0 && k in Flatten(Walk(snapshots, user, cur, limit))
    ensures snapshots != []
    ensures var next := Next(snapshots[0], user, cur, limit);
            || k in Page(snapshots[0], user, cur, limit)
            || (next.Some? && k in Flatten(Walk(snapshots[1..], user, next, limit)))
  {
    hide Page, Next;
    var pages := Walk(snapshots, user, cur, limit);
    var next := Next(snapshots[0], user, cur, limit);
    assert pages[1..] == if next.Some? then Walk(snapshots[1..], user, next, limit) else [];
  }

  /** Every key of a walk was a row of the user in the snapshot its page came from. */
  lemma {:induction false} WalkSource(snapshots: seq<Db>, user: Uuid, cur: Option<Key>, limit: nat, k: Key)
    returns (i: nat)
    requires limit > 0 && k in Flatten(Walk(snapshots, user, cur, limit))
    ensures i < |snapshots| && k in UserKeys(snapshots[i], user)
  {
    hide Page, Next, UserKeys, Flatten, Walk;
    WalkSplit(snapshots, user, cur, limit, k);
    if k in Page(snapshots[0], user, cur, limit) {
      PageSource(snapshots[0], user, cur, limit, k);
      i := 0;
    } else {
      var n := WalkSource(snapshots[1..], user, Next(snapshots[0], user, cur, limit), limit, k);
      i := n + 1;
    }
  }

  /**
   The paging walk under concurrent creates, edits and deletes: no id is seen twice, and every code present throughout
   is seen exactly once when the walk ends.
   */
  lemma WalkUnderChange(snapshots: seq<Db>, between: seq<seq<Write>>, user: Uuid, limit: nat)
    requires limit > 0 && Evolves(snapshots, between)
    requires forall db <- snapshots :: db.codes.Keys <= db.issued
    ensures var seen := Flatten(Walk(snapshots, user, None, limit));
            && (forall i, j :: 0 <= i < j < |seen| ==> seen[i].id != seen[j].id)
            && (Ends(snapshots, user, None, limit) ==>
                  forall k :: (forall db <- snapshots :: k in UserKeys(db, user)) ==> k in seen)
  {
    var seen := Flatten(Walk(snapshots, user, None, limit));
    WalkDescends(snapshots, user, None, limit);
    forall i, j | 0 <= i < j < |seen| ensures seen[i].id != seen[j].id {
      assert seen[i] in seen && seen[j] in seen;
      var a := WalkSource(snapshots, user, None, limit, seen[i]);
      var b := WalkSource(snapshots, user, None, limit, seen[j]);
      EvolvedSame(snapshots, between, if a < b then a else b, if a < b then b else a);
      assert Before(seen[j], seen[i]);
      assert snapshots[a].codes.Keys <= snapshots[a].issued && snapshots[b].codes.Keys <= snapshots[b].issued;
    }
    if Ends(snapshots, user, None, limit) {
      forall k | forall db <- snapshots :: k in UserKeys(db, user) ensures k in seen {
        WalkFinds(snapshots, user, None, limit, k);
      }
    }
  }

  /** Pages needed for n rows: one even when there are none. */
  function PageCount(n: nat, limit: nat): nat
    requires limit > 0
  {
    if n <= limit then 1 else 1 + PageCount(n - limit, limit)
  }

  /** That is n / limit rounded up. */
  lemma {:induction false} PageCountIsCeiling(n: nat, limit: nat)
    requires limit > 0 && n > 0
    ensures (PageCount(n, limit) - 1) * limit < n <= PageCount(n, limit) * limit
  {
    if n > limit {
      PageCountIsCeiling(n - limit, limit);
      var m := PageCount(n - limit, limit);
      assert m * limit == (m - 1) * limit + limit && (m + 1) * limit == m * limit + limit;
    }
  }

  lemma WalkUnfold(snapshots: seq<Db>, user: Uuid, cur: Option<Key>, limit: nat)
    requires limit > 0 && snapshots != []
    ensures var page, next := Page(snapshots[0], user, cur, limit), Next(snapshots[0], user, cur, limit);
            && Flatten(Walk(snapshots, user, cur, limit)) ==
                 page + (if next.Some? then Flatten(Walk(snapshots[1..], user, next, limit)) else [])
            && |Walk(snapshots, user, cur, limit)| ==
                 1 + (if next.Some? then |Walk(snapshots[1..], user, next, limit)| else 0)
            && (Ends(snapshots, user, cur, limit) <==> next.None? || Ends(snapshots[1..], user, next, limit))
  {
    var next := Next(snapshots[0], user, cur, limit);
    var pages := Walk(snapshots, user, cur, limit);
    assert pages[1..] == if next.Some? then Walk(snapshots[1..], user, next, limit) else [];
  }

  /** What is left after one more request. */
  lemma OnePageLess(keys: set<Key>, cur: Option<Key>, limit: nat)
    requires 0 < limit < |Remaining(keys, cur)|
    ensures var rest := Remaining(keys, cur); var later := Remaining(keys, Some(Sorted(rest)[limit - 1]));
            Sorted(rest)[..limit] + Sorted(later) == Sorted(rest) && |later| == |rest| - limit
  {
    var rest := Remaining(keys, cur);
    CutExact(rest, limit);
    RemainingTwice(keys, cur, Sorted(rest)[limit - 1]);
  }

  /** The walk over unchanging tables is as it should be from this cursor on. */
  predicate WalksAll(snapshots: seq<Db>, keys: set<Key>, user: Uuid, cur: Option<Key>, limit: nat)
    requires limit > 0
  {
    && Ends(snapshots, user, cur, limit)
    && Flatten(Walk(snapshots, user, cur, limit)) == Sorted(Remaining(keys, cur))
    && |Walk(snapshots, user, cur, limit)| == PageCount(|Remaining(keys, cur)|, limit)
  }

  lemma WalksAllFrom(snapshots: seq<Db>, keys: set<Key>, user: Uuid, cur: Option<Key>, limit: nat)
    requires limit > 0 && snapshots != [] && UserKeys(snapshots[0], user) == keys
    requires var rest := Remaining(keys, cur);
             |rest| > limit ==> WalksAll(snapshots[1..], keys, user, Some(Sorted(rest)[limit - 1]), limit)
    ensures WalksAll(snapshots, keys, user, cur, limit)
  {
    WalkUnfold(snapshots, user, cur, limit);
    if |Remaining(keys, cur)| > limit {
      OnePageLess(keys, cur, limit);
    }
  }

  /**
   With no changes the walk ends, its pages put together are the whole list after the cursor, newest first, and there
   are as many as the list needs.
   */
  lemma {:induction false} WalkUnchanged(snapshots: seq<Db>, db: Db, user: Uuid, cur: Option<Key>, limit: nat)
    requires limit > 0 && forall i :: 0 <= i < |snapshots| ==> snapshots[i] == db
    requires |snapshots| >= PageCount(|Remaining(UserKeys(db, user), cur)|, limit)
    ensures WalksAll(snapshots, UserKeys(db, user), user, cur, limit)
    decreases |snapshots|
  {
    var keys := UserKeys(db, user);
    var rest := Remaining(keys, cur);
    if |rest| > limit {
      OnePageLess(keys, cur, limit);
      WalkUnchanged(snapshots[1..], db, user, Some(Sorted(rest)[limit - 1]), limit);
    }
    WalksAllFrom(snapshots, keys, user, cur, limit);
  }
}
