/**
 The app's list of codes and what it should show: mobile/lib/features/codes/application/codes_list_controller.dart and
 PaginatedCodes of mobile/lib/features/codes/data/code_models.dart, against the tables behind the API.
 */
module ClientList {
  import opened Basics
  import opened Rfc3339
  import opened Cursor
  import opened Tables
  import opened Paging
  import opened Listing

  datatype Paginated = Paginated(codes: seq<Code>, nextCursor: Option<string>) {
    predicate HasMore() { nextCursor.Some? && nextCursor.value != "" }
  }

  /** The response to a page request, with the token as next_cursor: null when it is empty. */
  function FromServer(r: ListResult): Paginated {
    Paginated(r.codes, if r.nextCursor == "" then None else Some(r.nextCursor))
  }

  /** The cursor the server will read out of this list's token. */
  function Position(p: Paginated): Result<Option<Key>, ListError> {
    CursorOf(if p.HasMore() then p.nextCursor.value else "")
  }

  function Added(list: Option<Paginated>, code: Code): Paginated {
    match list
    case None => Paginated([code], None)
    case Some(p) => Paginated([code] + p.codes, p.nextCursor)
  }

  function Without(codes: seq<Code>, id: Uuid): seq<Code> {
    if codes == [] then []
    else (if codes[0].id == id then [] else [codes[0]]) + Without(codes[1..], id)
  }

  function Removed(p: Paginated, id: Uuid): Paginated {
    Paginated(Without(p.codes, id), p.nextCursor)
  }

  function Replaced(p: Paginated, code: Code): Paginated {
    Paginated(seq(|p.codes|, i requires 0 <= i < |p.codes| => if p.codes[i].id == code.id then code else p.codes[i]),
              p.nextCursor)
  }

  function Appended(p: Paginated, next: Paginated): Paginated {
    Paginated(p.codes + next.codes, next.nextCursor)
  }

  /** The rows at or above the cursor; all of them when there is none. */
  function Loaded(s: set<Key>, cur: Option<Key>): set<Key> {
    if cur.Some? then s - Remaining(s, cur) else s
  }

  lemma LoadedPresent(db: Db, user: Uuid, cur: Option<Key>)
    ensures Present(db, Sorted(Loaded(UserKeys(db, user), cur)))
  {
    SortedIs(Loaded(UserKeys(db, user), cur));
    SubsetPresent(db, user, Sorted(Loaded(UserKeys(db, user), cur)));
  }

  /** What the list should show. */
  function Above(db: Db, user: Uuid, cur: Option<Key>): seq<Code> {
    LoadedPresent(db, user, cur);
    Rows(db, Sorted(Loaded(UserKeys(db, user), cur)))
  }

  /** The list shows the user's rows with key at or above its cursor, newest first; all rows when it has no cursor. */
  predicate Mirrors(db: Db, user: Uuid, p: Paginated) {
    Position(p).Ok? && p.codes == Above(db, user, Position(p).value)
  }

  /** A code of the user's that a list with this cursor should show: any, or those not after the cursor. */
  predicate Due(db: Db, user: Uuid, cur: Option<Key>, id: Uuid) {
    id in db.codes && db.codes[id].user == user && (cur.None? || !Below(db, id, cur))
  }

  /** Exactly the codes due, newest first, each as the tables hold it. */
  ghost predicate Shows(db: Db, user: Uuid, cur: Option<Key>, codes: seq<Code>) {
    && (forall i :: 0 <= i < |codes| ==>
          && Due(db, user, cur, codes[i].id) && codes[i].row == db.codes[codes[i].id]
          && codes[i].dynamic == if codes[i].id in db.dynamics then Some(db.dynamics[codes[i].id]) else None)
    && (forall i, j :: 0 <= i < j < |codes| ==> Newer(db, codes[i].id, codes[j].id))
    && (forall id <- db.codes :: Due(db, user, cur, id) ==> OnPage(codes, id))
  }

  lemma DueIs(db: Db, user: Uuid, cur: Option<Key>, id: Uuid)
    requires id in db.codes
    ensures KeyOf(id, db.codes[id]) in Loaded(UserKeys(db, user), cur) <==> Due(db, user, cur, id)
  {
    KeyMeans(db, user, cur, id);
    KeyMeans(db, user, None, id);
  }

  lemma AboveShows(db: Db, user: Uuid, cur: Option<Key>)
    ensures Shows(db, user, cur, Above(db, user, cur))
  {
    hide Due, UserKeys, Loaded, Sorted;
    var keys, codes := Sorted(Loaded(UserKeys(db, user), cur)), Above(db, user, cur);
    SortedIs(Loaded(UserKeys(db, user), cur));
    LoadedPresent(db, user, cur);
    forall i | 0 <= i < |codes| ensures Due(db, user, cur, codes[i].id) {
      assert keys[i] in Members(keys);
      DueIs(db, user, cur, codes[i].id);
    }
    forall id | id in db.codes && Due(db, user, cur, id) ensures OnPage(codes, id) {
      DueIs(db, user, cur, id);
      assert KeyOf(id, db.codes[id]) in Members(keys);
      var i :| 0 <= i < |keys| && keys[i] == KeyOf(id, db.codes[id]);
      assert codes[i].id == id;
    }
  }

  lemma ShownKeys(db: Db, user: Uuid, cur: Option<Key>, codes: seq<Code>)
    requires Shows(db, user, cur, codes)
    ensures Present(db, KeysOf(codes)) && Rows(db, KeysOf(codes)) == codes
    ensures Descending(KeysOf(codes)) && Members(KeysOf(codes)) == Loaded(UserKeys(db, user), cur)
  {
    hide UserKeys, Loaded, Below, Newer;
    var keys := KeysOf(codes);
    assert Descending(keys) by {
      forall i, j | 0 <= i < j < |keys| ensures Before(keys[j], keys[i]) {
        NewerIsBefore(db, codes[i].id, codes[j].id);
      }
    }
    forall k ensures k in Members(keys) <==> k in Loaded(UserKeys(db, user), cur) {
      if k in Members(keys) {
        var i :| 0 <= i < |keys| && keys[i] == k;
        DueIs(db, user, cur, codes[i].id);
      }
      if k in Loaded(UserKeys(db, user), cur) {
        LoadedKey(db, user, cur, k);
        DueIs(db, user, cur, k.id);
        assert OnPage(codes, k.id);
        var i :| 0 <= i < |codes| && codes[i].id == k.id;
        assert keys[i] == k;
      }
    }
  }

  lemma NewerIsBefore(db: Db, a: Uuid, b: Uuid)
    requires a in db.codes && b in db.codes
    ensures Newer(db, a, b) <==> Before(KeyOf(b, db.codes[b]), KeyOf(a, db.codes[a]))
  {
  }

  lemma LoadedKey(db: Db, user: Uuid, cur: Option<Key>, k: Key)
    requires k in Loaded(UserKeys(db, user), cur)
    ensures k.id in db.codes && k == KeyOf(k.id, db.codes[k.id])
  {
    InUserKeys(db, user, k);
  }

  /** What mirroring means for the codes on the screen. */
  lemma MirrorsIs(db: Db, user: Uuid, p: Paginated)
    ensures Mirrors(db, user, p) <==> Position(p).Ok? && Shows(db, user, Position(p).value, p.codes)
  {
    hide Shows, Sorted, UserKeys, Loaded, CursorOf;
    if Position(p).Ok? {
      var cur := Position(p).value;
      AboveShows(db, user, cur);
      if Shows(db, user, cur, p.codes) {
        ShownKeys(db, user, cur, p.codes);
        SortedIs(Loaded(UserKeys(db, user), cur));
        DescendingUnique(KeysOf(p.codes), Sorted(Loaded(UserKeys(db, user), cur)));
      }
    }
  }

  lemma JoinSorted(a: seq<Key>, b: seq<Key>)
    requires Descending(a) && Descending(b)
    requires forall x, y :: x in a && y in b ==> Before(y, x)
    ensures Descending(a + b) && Members(a + b) == Members(a) + Members(b)
  {
    forall i, j | 0 <= i < j < |a + b| ensures Before((a + b)[j], (a + b)[i]) {
      if i < |a| <= j {
        assert (a + b)[i] in a && (a + b)[j] in b;
      }
    }
  }

  lemma LoadedSets(s: set<Key>, cur: Option<Key>, next: Option<Key>)
    requires next.Some? && cur.Some? ==> Before(next.value, cur.value)
    ensures (s - Remaining(s, cur)) + (Remaining(s, cur) - if next.Some? then Remaining(s, next) else {})
            == Loaded(s, next)
  {
  }

  lemma AcrossCursor(s: set<Key>, cur: Option<Key>, x: Key, y: Key)
    requires x in s - Remaining(s, cur) && y in Remaining(s, cur)
    ensures Before(y, x)
  {
  }

  /** The rows up to a cursor and the page after it are the rows up to the next cursor. */
  lemma PageExtends(db: Db, user: Uuid, cur: Option<Key>, limit: nat)
    requires limit > 0
    ensures var s := UserKeys(db, user);
            Sorted(s - Remaining(s, cur)) + Page(db, user, cur, limit) == Sorted(Loaded(s, Next(db, user, cur, limit)))
  {
    hide Sorted, Page, Next, UserKeys, Remaining, Loaded, Before;
    var s, next, page := UserKeys(db, user), Next(db, user, cur, limit), Page(db, user, cur, limit);
    var before := Sorted(s - Remaining(s, cur));
    PageExact(db, user, cur, limit);
    SortedIs(s - Remaining(s, cur));
    SortedIs(Loaded(s, next));
    forall x, y | x in before && y in page ensures Before(y, x) {
      assert x in Members(before) && y in Members(page);
      AcrossCursor(s, cur, x, y);
    }
    JoinSorted(before, page);
    LoadedSets(s, cur, next);
    DescendingUnique(before + page, Sorted(Loaded(s, next)));
  }

  lemma RowsConcat(db: Db, a: seq<Key>, b: seq<Key>)
    requires Present(db, a) && Present(db, b)
    ensures Present(db, a + b) && Rows(db, a + b) == Rows(db, a) + Rows(db, b)
  {
  }

  lemma AboveExtends(db: Db, user: Uuid, cur: Option<Key>, limit: nat)
    requires limit > 0
    ensures var s := UserKeys(db, user);
            && Present(db, Sorted(s - Remaining(s, cur))) && Present(db, Page(db, user, cur, limit))
            && Rows(db, Sorted(s - Remaining(s, cur))) + Rows(db, Page(db, user, cur, limit))
               == Above(db, user, Next(db, user, cur, limit))
  {
    hide Page, Next, Sorted, UserKeys;
    var s := UserKeys(db, user);
    SortedIs(s - Remaining(s, cur));
    SubsetPresent(db, user, Sorted(s - Remaining(s, cur)));
    PagePresent(db, user, cur, limit);
    LoadedPresent(db, user, Next(db, user, cur, limit));
    PageExtends(db, user, cur, limit);
    RowsConcat(db, Sorted(s - Remaining(s, cur)), Page(db, user, cur, limit));
  }

  lemma FromServerPosition(db: Db, user: Uuid, cur: Option<Key>, limit: nat)
    requires limit > 0 && InRange(db)
    ensures Position(FromServer(Listed(db, user, cur, limit))) == Ok(Next(db, user, cur, limit))
  {
    hide Page, Next, Encode, Decode, UserKeys;
    var next := Next(db, user, cur, limit);
    if next.Some? {
      NextPresent(db, user, cur, limit);
    }
    TokenRoundTrip(next);
  }

  /** A first page mirrors the tables. */
  lemma {:induction false} RefreshMirrors(db: Db, user: Uuid, limit: nat)
    requires limit > 0 && InRange(db)
    ensures Mirrors(db, user, FromServer(Listed(db, user, None, limit)))
  {
    hide Page, Next, Sorted, UserKeys, Above;
    FromServerPosition(db, user, None, limit);
    var s := UserKeys(db, user);
    assert s - Remaining(s, None) == {};
    assert |Sorted(s - Remaining(s, None))| == 0;
    AboveExtends(db, user, None, limit);
  }

  /**
   The next page continues where the list stops, even if the cursor's own row is gone: the longer list mirrors the
   tables that answered exactly when the list it was put behind still does.
   */
  lemma AppendMirrors(db: Db, user: Uuid, p: Paginated, limit: nat)
    requires limit > 0 && InRange(db) && Position(p).Ok? && Position(p).value.Some?
    ensures Mirrors(db, user, Appended(p, FromServer(Listed(db, user, Position(p).value, limit))))
            <==> Mirrors(db, user, p)
  {
    hide Page, Next, Sorted, UserKeys;
    var cur := Position(p).value;
    FromServerPosition(db, user, cur, limit);
    AboveExtends(db, user, cur, limit);
    SamePrefix(p.codes, Above(db, user, cur), Listed(db, user, cur, limit).codes);
  }

  lemma SamePrefix(a: seq<Code>, b: seq<Code>, rest: seq<Code>)
    ensures a + rest == b + rest <==> a == b
  {
    if a + rest == b + rest {
      assert |a| == |b| && (a + rest)[..|a|] == a && (b + rest)[..|b|] == b;
    }
  }

  lemma ListedKeys(db: Db, user: Uuid, cur: Option<Key>)
    ensures var keys := Sorted(Loaded(UserKeys(db, user), cur));
            && Descending(keys) && Members(keys) == Loaded(UserKeys(db, user), cur)
            && Members(keys) <= UserKeys(db, user)
            && forall k <- keys :: k.id in db.codes && KeyOf(k.id, db.codes[k.id]) == k
  {
    SortedIs(Loaded(UserKeys(db, user), cur));
    forall k | k in Sorted(Loaded(UserKeys(db, user), cur))
      ensures k.id in db.codes && KeyOf(k.id, db.codes[k.id]) == k
    {
      assert k in Members(Sorted(Loaded(UserKeys(db, user), cur)));
      InUserKeys(db, user, k);
    }
  }

  /** The rows named are the same in both tables. */
  lemma SameRows(db: Db, db': Db, keys: seq<Key>)
    requires Present(db, keys) && forall i :: 0 <= i < |keys| ==> SameFor(db, db', keys[i].id)
    ensures Present(db', keys) && Rows(db', keys) == Rows(db, keys)
  {
    forall i | 0 <= i < |keys| ensures keys[i].id in db'.codes && Joined(db', keys[i].id) == Joined(db, keys[i].id) {
      assert SameFor(db, db', keys[i].id);
    }
  }

  /** k may go on top of a list whose cursor is cur: newer than everything listed, and not below the cursor. */
  predicate OnTop(s: set<Key>, cur: Option<Key>, k: Key) {
    (cur.Some? ==> !Before(k, cur.value)) && forall j <- Loaded(s, cur) :: Before(j, k)
  }

  /** When a new code may go on top, in terms of the rows. */
  lemma OnTopIs(db: Db, user: Uuid, cur: Option<Key>, k: Key)
    ensures OnTop(UserKeys(db, user), cur, k) <==>
            && (cur.None? || k.createdAt > cur.value.createdAt
                || (k.createdAt == cur.value.createdAt && k.id >= cur.value.id))
            && forall id <- db.codes :: Due(db, user, cur, id) ==>
                 db.codes[id].createdAt < k.createdAt || (db.codes[id].createdAt == k.createdAt && id < k.id)
  {
    hide Due, UserKeys, Loaded;
    forall id | id in db.codes
      ensures KeyOf(id, db.codes[id]) in Loaded(UserKeys(db, user), cur) <==> Due(db, user, cur, id)
    {
      DueIs(db, user, cur, id);
    }
    forall j | j in Loaded(UserKeys(db, user), cur)
      ensures j.id in db.codes && j == KeyOf(j.id, db.codes[j.id]) && Due(db, user, cur, j.id)
    {
      LoadedKey(db, user, cur, j);
      DueIs(db, user, cur, j.id);
    }
  }

  /** Removing goes code by code. */
  lemma {:induction false} WithoutIs(a: seq<Code>, b: seq<Code>, c: Code, id: Uuid)
    ensures Without([], id) == [] && Without([c], id) == if c.id == id then [] else [c]
    ensures Without(a + b, id) == Without(a, id) + Without(b, id)
  {
    assert [c][1..] == [];
    if a == [] {
      assert a + b == b;
    } else {
      assert (a + b)[1..] == a[1..] + b;
      WithoutIs(a[1..], b, c, id);
    }
  }

  lemma TopIsNewest(s: set<Key>, cur: Option<Key>, k: Key)
    requires k !in s
    ensures OnTop(s, cur, k) <==> IsNewest(Loaded(s + {k}, cur), k)
    ensures k in Loaded(s + {k}, cur) ==> Loaded(s + {k}, cur) - {k} == Loaded(s, cur)
  {
    hide Before;
    if cur.Some? {
      assert Loaded(s, cur) == set j | j in s && !Before(j, cur.value);
      assert Loaded(s + {k}, cur) == set j | j in s + {k} && !Before(j, cur.value);
    }
    if IsNewest(Loaded(s + {k}, cur), k) {
      forall j | j in Loaded(s, cur) ensures Before(j, k) {
        assert j in Loaded(s + {k}, cur) && j != k;
      }
    }
  }

  lemma FirstIsNewest(k: Key, keys: seq<Key>)
    requires Descending([k] + keys)
    ensures IsNewest(Members([k] + keys), k)
  {
    var all := [k] + keys;
    assert all[0] in all;
    forall j | j in all ensures j == k || Before(j, k) {
      var i :| 0 <= i < |all| && all[i] == j;
      if i > 0 {
        assert Before(all[i], all[0]);
      }
    }
  }

  lemma ConsIsSorted(s: set<Key>, cur: Option<Key>, k: Key)
    requires k !in s
    ensures [k] + Sorted(Loaded(s, cur)) == Sorted(Loaded(s + {k}, cur)) <==> OnTop(s, cur, k)
  {
    hide Sorted, OnTop, Loaded, IsNewest, Descending, Members, Before;
    var old_, new_ := Loaded(s, cur), Loaded(s + {k}, cur);
    SortedIs(old_);
    SortedIs(new_);
    TopIsNewest(s, cur, k);
    if OnTop(s, cur, k) {
      NewestIsIn(new_, k);
      ConsSorted(k, Sorted(old_), new_);
      DescendingUnique([k] + Sorted(old_), Sorted(new_));
    }
    if [k] + Sorted(old_) == Sorted(new_) {
      FirstIsNewest(k, Sorted(old_));
    }
  }

  lemma NewestIsIn(s: set<Key>, k: Key)
    requires IsNewest(s, k)
    ensures k in s
  {
  }

  lemma InUserKeys(db: Db, user: Uuid, k: Key)
    ensures k in UserKeys(db, user) <==> Owned(db, user, k.id) && db.codes[k.id].createdAt == k.createdAt
  {
    if Owned(db, user, k.id) && db.codes[k.id].createdAt == k.createdAt {
      assert KeyOf(k.id, db.codes[k.id]) == k;
    }
  }

  predicate IsInsert(w: Write) { w.InsertStatic? || w.InsertDynamic? }

  lemma InsertedKeys(db: Db, user: Uuid, w: Write)
    requires IsInsert(w) && Accepts(db, w) && w.draft.user == user && Sound(db)
    ensures UserKeys(Apply(db, w), user) == UserKeys(db, user) + {Key(w.now, w.id)}
    ensures Key(w.now, w.id) !in UserKeys(db, user) && w.id !in db.codes
    ensures Owned(Apply(db, w), user, w.id) && Apply(db, w).codes[w.id].createdAt == w.now
  {
    var db', k := Apply(db, w), Key(w.now, w.id);
    forall j ensures j in UserKeys(db', user) <==> j in UserKeys(db, user) || j == k {
      InUserKeys(db, user, j);
      InUserKeys(db', user, j);
    }
  }

  lemma OthersAfter(db: Db, w: Write, user: Uuid, keys: seq<Key>)
    requires Sound(db) && Members(keys) <= UserKeys(db, user) && forall k <- keys :: k.id != w.id
    ensures Present(db, keys) && Present(Apply(db, w), keys) && Rows(Apply(db, w), keys) == Rows(db, keys)
  {
    hide Apply, Sound;
    SubsetPresent(db, user, keys);
    forall i | 0 <= i < |keys| ensures SameFor(db, Apply(db, w), keys[i].id) {
      OneCodeTouched(db, w, keys[i].id);
    }
    SameRows(db, Apply(db, w), keys);
  }

  /** Putting a saved code on top keeps the mirror exactly when it belongs there. */
  lemma AddMirrors(db: Db, user: Uuid, p: Paginated, w: Write)
    requires Sound(db) && Mirrors(db, user, p)
    requires IsInsert(w) && Accepts(db, w) && w.draft.user == user
    ensures w.id in Apply(db, w).codes
    ensures Mirrors(Apply(db, w), user, Added(Some(p), Joined(Apply(db, w), w.id)))
            <==> OnTop(UserKeys(db, user), Position(p).value, Key(w.now, w.id))
  {
    hide Apply, Sound, Sorted, UserKeys, OnTop, Loaded, CursorOf;
    var db', k, s, cur := Apply(db, w), Key(w.now, w.id), UserKeys(db, user), Position(p).value;
    InsertedKeys(db, user, w);
    ConsIsSorted(s, cur, k);
    var old_ := Sorted(Loaded(s, cur));
    ListedKeys(db, user, cur);
    OthersAfter(db, w, user, old_);
    AddedRows(db', user, cur, old_, k);
  }

  /**
   What loadMore captured before it waited is put back when it is done: a code saved meanwhile is no longer shown
   although it belongs on top.
   */
  lemma SaveDuringLoadIsLost(db: Db, user: Uuid, captured: Paginated, w: Write, limit: nat)
    requires limit > 0 && Sound(db) && Mirrors(db, user, captured) && Position(captured).value.Some?
    requires IsInsert(w) && Accepts(db, w) && w.draft.user == user && InRange(Apply(db, w))
    requires OnTop(UserKeys(db, user), Position(captured).value, Key(w.now, w.id))
    ensures var answered := FromServer(Listed(Apply(db, w), user, Position(captured).value, limit));
            !Mirrors(Apply(db, w), user, Appended(captured, answered))
  {
    hide Apply, Sound, Sorted, UserKeys, CursorOf, Listed;
    var s, cur, k := UserKeys(db, user), Position(captured).value, Key(w.now, w.id);
    AppendMirrors(Apply(db, w), user, captured, limit);
    InsertedKeys(db, user, w);
    assert Loaded(s + {k}, cur) == Loaded(s, cur) + {k};
  }

  lemma AddedRows(db: Db, user: Uuid, cur: Option<Key>, keys: seq<Key>, k: Key)
    requires Present(db, keys) && k.id in db.codes && KeyOf(k.id, db.codes[k.id]) == k
    ensures [Joined(db, k.id)] + Rows(db, keys) == Above(db, user, cur)
            <==> [k] + keys == Sorted(Loaded(UserKeys(db, user), cur))
  {
    hide Sorted, UserKeys, Loaded;
    assert Present(db, [k]);
    RowsConcat(db, [k], keys);
    LoadedPresent(db, user, cur);
    assert Rows(db, [k]) == [Joined(db, k.id)];
    KeysOfRows(db, [k] + keys);
    KeysOfRows(db, Sorted(Loaded(UserKeys(db, user), cur)));
  }

  /** A save before anything is loaded leaves a list without a cursor: right exactly when the user had no codes. */
  lemma AddUnloaded(db: Db, user: Uuid, w: Write)
    requires Sound(db) && IsInsert(w) && Accepts(db, w) && w.draft.user == user
    ensures w.id in Apply(db, w).codes
    ensures Mirrors(Apply(db, w), user, Added(None, Joined(Apply(db, w), w.id))) <==> UserKeys(db, user) == {}
  {
    hide Apply, Sound, Sorted, UserKeys;
    var db', k := Apply(db, w), Key(w.now, w.id);
    InsertedKeys(db, user, w);
    AddedRows(db', user, None, [], k);
    assert Rows(db', []) == [] && [Joined(db', w.id)] + [] == [Joined(db', w.id)] && [k] + [] == [k];
    SingleSorted(UserKeys(db, user), k);
  }

  lemma SingleSorted(s: set<Key>, k: Key)
    requires k !in s
    ensures [k] == Sorted(s + {k}) <==> s == {}
  {
    SortedIs(s + {k});
    assert Members([k]) == {k} && Descending([k]);
    if s == {} {
      assert s + {k} == {k};
      DescendingUnique([k], Sorted(s + {k}));
    }
    if [k] == Sorted(s + {k}) {
      assert s + {k} == {k};
      assert forall j :: j in s ==> j in s + {k};
    }
  }

  function DropId(keys: seq<Key>, id: Uuid): seq<Key> {
    if keys == [] then [] else (if keys[0].id == id then [] else [keys[0]]) + DropId(keys[1..], id)
  }

  lemma {:induction false} DropIdIs(keys: seq<Key>, id: Uuid)
    requires Descending(keys)
    ensures Descending(DropId(keys, id))
    ensures Members(DropId(keys, id)) == set k | k in keys && k.id != id
  {
    if keys != [] {
      DropIdIs(keys[1..], id);
      var rest := DropId(keys[1..], id);
      forall k ensures k in keys <==> k == keys[0] || k in keys[1..] {}
      FirstIsNewest(keys[0], keys[1..]);
      assert [keys[0]] + keys[1..] == keys;
      forall x, y | x in [keys[0]] && y in rest ensures Before(y, x) {
        assert y in Members(rest) && y in keys[1..];
        var i :| 0 <= i < |keys[1..]| && keys[1..][i] == y;
        assert keys[i + 1] == y;
      }
      JoinSorted([keys[0]], rest);
      JoinSorted([], rest);
    }
  }

  lemma {:induction false} DropRows(db: Db, keys: seq<Key>, id: Uuid)
    requires Present(db, keys)
    ensures Present(db, DropId(keys, id)) && Rows(db, DropId(keys, id)) == Without(Rows(db, keys), id)
  {
    if keys != [] {
      var head := if keys[0].id == id then [] else [keys[0]];
      assert Present(db, keys[1..]) && Present(db, head);
      DropRows(db, keys[1..], id);
      assert Rows(db, keys)[1..] == Rows(db, keys[1..]);
      RowsConcat(db, head, DropId(keys[1..], id));
      assert Rows(db, head) == if keys[0].id == id then [] else [Rows(db, keys)[0]];
    }
  }

  lemma DeletedKeys(db: Db, user: Uuid, id: Uuid, cur: Option<Key>)
    requires Owned(db, user, id)
    ensures UserKeys(Apply(db, DeleteCode(user, id)), user) == set k | k in UserKeys(db, user) && k.id != id
    ensures Loaded(UserKeys(Apply(db, DeleteCode(user, id)), user), cur)
            == set k | k in Loaded(UserKeys(db, user), cur) && k.id != id
  {
    var db' := Apply(db, DeleteCode(user, id));
    forall k ensures k in UserKeys(db', user) <==> k in UserKeys(db, user) && k.id != id {
      InUserKeys(db, user, k);
      InUserKeys(db', user, k);
    }
  }

  /** Taking a deleted code off the list keeps the mirror, wherever the code was, the cursor's own row included. */
  lemma RemoveMirrors(db: Db, user: Uuid, p: Paginated, id: Uuid)
    requires Sound(db) && Mirrors(db, user, p) && Owned(db, user, id)
    ensures Mirrors(Apply(db, DeleteCode(user, id)), user, Removed(p, id))
  {
    hide Apply, Sound, Sorted, UserKeys, Loaded, CursorOf;
    var w, cur := DeleteCode(user, id), Position(p).value;
    var db', keys := Apply(db, w), Sorted(Loaded(UserKeys(db, user), cur));
    ListedKeys(db, user, cur);
    ListedKeys(db', user, cur);
    DropIdIs(keys, id);
    DeletedKeys(db, user, id, cur);
    DropRows(db, keys, id);
    DescendingUnique(DropId(keys, id), Sorted(Loaded(UserKeys(db', user), cur)));
    assert forall k <- DropId(keys, id) :: k in Members(DropId(keys, id));
    OthersAfter(db, w, user, DropId(keys, id));
  }

  /** The same codes with the same keys; only the code with this id may have changed. */
  predicate Edited(db: Db, db': Db, user: Uuid, id: Uuid) {
    && UserKeys(db', user) == UserKeys(db, user)
    && forall other :: Owned(db, user, other) && other != id ==> SameFor(db, db', other)
  }

  /** Showing the server's version of an edited code keeps the mirror. */
  lemma ReplaceMirrors(db: Db, db': Db, user: Uuid, p: Paginated, id: Uuid)
    requires Mirrors(db, user, p) && Edited(db, db', user, id) && Owned(db', user, id)
    ensures Mirrors(db', user, Replaced(p, Joined(db', id)))
  {
    hide Sorted, UserKeys, Loaded, CursorOf;
    var cur := Position(p).value;
    var keys := Sorted(Loaded(UserKeys(db, user), cur));
    ListedKeys(db, user, cur);
    ListedKeys(db', user, cur);
    forall i | 0 <= i < |keys| ensures Replaced(p, Joined(db', id)).codes[i] == Joined(db', keys[i].id) {
      assert keys[i] in keys && keys[i] in Members(keys);
      InUserKeys(db, user, keys[i]);
      if keys[i].id != id {
        assert SameFor(db, db', keys[i].id);
      }
    }
  }

  lemma ChangedIsEdit(db: Db, w: Write, user: Uuid)
    requires Sound(db) && !IsInsert(w) && !w.DeleteCode?
    ensures Edited(db, Apply(db, w), user, w.id)
  {
    hide Sound;
    forall k ensures k in UserKeys(Apply(db, w), user) <==> k in UserKeys(db, user) {
      InUserKeys(db, user, k);
      InUserKeys(Apply(db, w), user, k);
    }
    forall other | Owned(db, user, other) && other != w.id ensures SameFor(db, Apply(db, w), other) {
      OneCodeTouched(db, w, other);
    }
  }

  /** Nothing of the user's changed. */
  predicate Untouched(db: Db, db': Db, user: Uuid) {
    && UserKeys(db', user) == UserKeys(db, user)
    && forall id :: Owned(db, user, id) ==> SameFor(db, db', id)
  }

  lemma UntouchedMirrors(db: Db, db': Db, user: Uuid, p: Paginated)
    requires Mirrors(db, user, p) && Untouched(db, db', user)
    ensures Mirrors(db', user, p)
  {
    hide Sorted, UserKeys, Loaded, CursorOf;
    var cur := Position(p).value;
    var keys := Sorted(Loaded(UserKeys(db, user), cur));
    ListedKeys(db, user, cur);
    forall i | 0 <= i < |keys| ensures SameFor(db, db', keys[i].id) {
      assert keys[i] in keys && keys[i] in Members(keys);
      InUserKeys(db, user, keys[i]);
    }
    SameRows(db, db', keys);
  }

  /**
   What one client does, one thing at a time, each with its effect on the server; Elsewhere is a statement another user
   has run meanwhile.
   */
  datatype Action =
    | Refresh(answered: bool)
    | LoadMore(answered: bool)
    | Save(w: Write)
    | Edit(w: Write)
    | Remove(id: Uuid)
    | Elsewhere(w: Write)

  /** newest is the latest creation time among the user's codes so far, deleted ones included. */
  datatype Client = Client(db: Db, list: Option<Paginated>, newest: Instant)

  function Do(user: Uuid, c: Client, a: Action): Client
    requires InRange(c.db)
  {
    match a
    case Refresh(answered) =>
      if answered then c.(list := Some(FromServer(Listed(c.db, user, None, DEFAULT_LIST_LIMIT)))) else c
    case LoadMore(answered) =>
      if answered && c.list.Some? && c.list.value.HasMore() && Position(c.list.value).Ok? then
        c.(list := Some(Appended(c.list.value, FromServer(Listed(c.db, user, Position(c.list.value).value,
                                                                DEFAULT_LIST_LIMIT)))))
      else c
    case Save(w) =>
      if IsInsert(w) && Accepts(c.db, w) then
        var db := Apply(c.db, w);
        Client(db, Some(Added(c.list, Joined(db, w.id))), w.now)
      else c
    case Edit(w) =>
      if Owned(c.db, user, w.id) && !IsInsert(w) && !w.DeleteCode? && Accepts(c.db, w) then
        var db := Apply(c.db, w);
        c.(db := db, list := if c.list.Some? then Some(Replaced(c.list.value, Joined(db, w.id))) else None)
      else c
    case Remove(id) =>
      if Owned(c.db, user, id) then
        c.(db := Apply(c.db, DeleteCode(user, id)),
           list := if c.list.Some? then Some(Removed(c.list.value, id)) else None)
      else c
    case Elsewhere(w) => c.(db := Apply(c.db, w))
  }

  /** The user a statement belongs to; UpdateDestination belongs to the owner of its code. */
  function OwnerOf(db: Db, w: Write): Option<Uuid> {
    match w
    case InsertStatic(_, draft, _) => Some(draft.user)
    case InsertDynamic(_, draft, _, _, _) => Some(draft.user)
    case UpdateDestination(id, _, _) => if id in db.codes then Some(db.codes[id].user) else None
    case UpdateLabel(user, _, _, _) => Some(user)
    case DeleteCode(user, _) => Some(user)
  }

  /**
   New codes are newest, creation times print with four digits, and nothing is saved before the first page has loaded
   unless the user has no codes.
   */
  predicate Timely(user: Uuid, c: Client, a: Action) {
    match a
    case Save(w) =>
      && IsInsert(w) && UrlWhenDynamic(w) && w.draft.user == user && FourDigitYear(w.now) && c.newest < w.now
      && (c.list.None? ==> UserKeys(c.db, user) == {})
    case Elsewhere(w) =>
      UrlWhenDynamic(w) && OwnerOf(c.db, w) != Some(user) && (IsInsert(w) ==> FourDigitYear(w.now))
    case _ => true
  }

  predicate AllTimely(user: Uuid, c: Client, actions: seq<Action>)
    requires InRange(c.db)
    decreases |actions|
  {
    actions == [] ||
    (Timely(user, c, actions[0]) && InRange(Do(user, c, actions[0]).db)
     && AllTimely(user, Do(user, c, actions[0]), actions[1..]))
  }

  function DoAll(user: Uuid, c: Client, actions: seq<Action>): Client
    requires InRange(c.db) && AllTimely(user, c, actions)
    decreases |actions|
  {
    if actions == [] then c else DoAll(user, Do(user, c, actions[0]), actions[1..])
  }

  ghost predicate InSync(user: Uuid, c: Client) {
    && Sound(c.db)
    && (forall k <- UserKeys(c.db, user) :: k.createdAt <= c.newest)
    && (c.list.Some? ==>
          && Mirrors(c.db, user, c.list.value)
          && (Position(c.list.value).value.Some? ==> Position(c.list.value).value.value.createdAt <= c.newest))
  }

  lemma NextIsKey(db: Db, user: Uuid, cur: Option<Key>, limit: nat)
    requires limit > 0 && Next(db, user, cur, limit).Some?
    ensures Next(db, user, cur, limit).value in UserKeys(db, user)
  {
    PageExact(db, user, cur, limit);
    var page := Page(db, user, cur, limit);
    assert page[limit - 1] in Members(page);
  }

  lemma PagingInSync(user: Uuid, c: Client, cur: Option<Key>, p: Paginated)
    requires InRange(c.db) && Sound(c.db) && (forall k <- UserKeys(c.db, user) :: k.createdAt <= c.newest)
    requires Position(p) == Ok(Next(c.db, user, cur, DEFAULT_LIST_LIMIT)) && Mirrors(c.db, user, p)
    ensures InSync(user, c.(list := Some(p)))
  {
    hide Sound, Next, UserKeys, CursorOf, Mirrors;
    if Next(c.db, user, cur, DEFAULT_LIST_LIMIT).Some? {
      NextIsKey(c.db, user, cur, DEFAULT_LIST_LIMIT);
    }
  }

  lemma NoCursor(codes: seq<Code>)
    ensures Position(Paginated(codes, None)) == Ok(None)
  {
  }

  lemma SaveInSync(user: Uuid, c: Client, w: Write)
    requires InSync(user, c) && InRange(c.db) && Timely(user, c, Save(w))
    ensures InSync(user, Do(user, c, Save(w)))
  {
    hide Sound, Mirrors, CursorOf, UserKeys, Apply, Accepts;
    if Accepts(c.db, w) {
      ApplySound(c.db, w);
      InsertedKeys(c.db, user, w);
      if c.list.Some? {
        AddMirrors(c.db, user, c.list.value, w);
      } else {
        AddUnloaded(c.db, user, w);
        NoCursor([Joined(Apply(c.db, w), w.id)]);
      }
    }
  }

  lemma ElsewhereUntouched(db: Db, user: Uuid, w: Write)
    requires Sound(db) && UrlWhenDynamic(w) && OwnerOf(db, w) != Some(user)
    ensures Untouched(db, Apply(db, w), user)
  {
    forall k ensures k in UserKeys(Apply(db, w), user) <==> k in UserKeys(db, user) {
      InUserKeys(db, user, k);
      InUserKeys(Apply(db, w), user, k);
    }
    forall id | Owned(db, user, id) ensures SameFor(db, Apply(db, w), id) {
      if id != w.id {
        OneCodeTouched(db, w, id);
      }
    }
  }

  lemma EditInSync(user: Uuid, c: Client, w: Write)
    requires InSync(user, c) && InRange(c.db)
    ensures InSync(user, Do(user, c, Edit(w)))
  {
    hide Sound, Mirrors, CursorOf, UserKeys;
    var c' := Do(user, c, Edit(w));
    if c' != c {
      ApplySound(c.db, w);
      ChangedIsEdit(c.db, w, user);
      if c.list.Some? {
        ReplaceMirrors(c.db, c'.db, user, c.list.value, w.id);
      }
    }
  }

  lemma RemoveInSync(user: Uuid, c: Client, id: Uuid)
    requires InSync(user, c) && InRange(c.db)
    ensures InSync(user, Do(user, c, Remove(id)))
  {
    hide Sound, Mirrors, CursorOf, UserKeys, Apply;
    if Owned(c.db, user, id) {
      ApplySound(c.db, DeleteCode(user, id));
      DeletedKeys(c.db, user, id, None);
      if c.list.Some? {
        RemoveMirrors(c.db, user, c.list.value, id);
      }
    }
  }

  lemma StepInSync(user: Uuid, c: Client, a: Action)
    requires InSync(user, c) && InRange(c.db) && Timely(user, c, a)
    ensures InSync(user, Do(user, c, a))
  {
    hide Sound, Mirrors, CursorOf, UserKeys, Apply, Accepts;
    match a
    case Refresh(answered) =>
      RefreshMirrors(c.db, user, DEFAULT_LIST_LIMIT);
      FromServerPosition(c.db, user, None, DEFAULT_LIST_LIMIT);
      PagingInSync(user, c, None, FromServer(Listed(c.db, user, None, DEFAULT_LIST_LIMIT)));
    case LoadMore(answered) =>
      if Do(user, c, a) != c {
        var p := c.list.value;
        HasMorePosition(p);
        AppendMirrors(c.db, user, p, DEFAULT_LIST_LIMIT);
        FromServerPosition(c.db, user, Position(p).value, DEFAULT_LIST_LIMIT);
        PagingInSync(user, c, Position(p).value, Do(user, c, a).list.value);
      }
    case Save(w) => SaveInSync(user, c, w);
    case Edit(w) => EditInSync(user, c, w);
    case Remove(id) => RemoveInSync(user, c, id);
    case Elsewhere(w) =>
      ApplySound(c.db, w);
      ElsewhereUntouched(c.db, user, w);
      if c.list.Some? {
        UntouchedMirrors(c.db, Apply(c.db, w), user, c.list.value);
      }
  }

  lemma HasMorePosition(p: Paginated)
    requires p.HasMore() && Position(p).Ok?
    ensures Position(p).value.Some?
  {
  }

  /**
   Over any run of refreshes, page loads, saves, edits and deletes that do not overlap, with new codes newest, the list
   shows exactly the user's rows with key at or above its cursor, newest first, and all of them when it has no cursor,
   whatever other users do meanwhile.
   */
  lemma {:induction false} ListMirrorsServer(user: Uuid, c: Client, actions: seq<Action>)
    requires InRange(c.db) && AllTimely(user, c, actions) && InSync(user, c)
    ensures InSync(user, DoAll(user, c, actions))
    decreases |actions|
  {
    if actions != [] {
      StepInSync(user, c, actions[0]);
      ListMirrorsServer(user, Do(user, c, actions[0]), actions[1..]);
    }
  }
}
