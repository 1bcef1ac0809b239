/**
 Pages of joined rows behind opaque tokens: backend/internal/codes/service.go (List), and walks that follow the tokens.
 */
module Listing {
  import opened Basics
  import opened Rfc3339
  import opened Cursor
  import opened Tables
  import opened Paging

  // InvalidCursor is ErrInvalidCursor; a failed query is wrapped and opaque.
  datatype ListError = InvalidCursor | QueryFailed

  datatype ListResult = ListResult(codes: seq<Code>, nextCursor: string)

  /** Every timestamp prints with a four-digit year. */
  predicate InRange(db: Db) {
    forall id <- db.codes :: FourDigitYear(db.codes[id].createdAt)
  }

  /** The keys are those of rows of the table. */
  predicate Present(db: Db, keys: seq<Key>) {
    forall i :: 0 <= i < |keys| ==> keys[i].id in db.codes && KeyOf(keys[i].id, db.codes[keys[i].id]) == keys[i]
  }

  function Rows(db: Db, keys: seq<Key>): (rows: seq<Code>)
    requires Present(db, keys)
    ensures |rows| == |keys| && forall i :: 0 <= i < |rows| ==> rows[i] == Joined(db, keys[i].id)
  {
    seq(|keys|, i requires 0 <= i < |keys| => Joined(db, keys[i].id))
  }

  lemma SubsetPresent(db: Db, user: Uuid, keys: seq<Key>)
    requires Members(keys) <= UserKeys(db, user)
    ensures Present(db, keys)
    ensures forall i :: 0 <= i < |keys| ==> db.codes[keys[i].id].user == user
  {
    forall i | 0 <= i < |keys|
      ensures keys[i].id in db.codes && KeyOf(keys[i].id, db.codes[keys[i].id]) == keys[i]
              && db.codes[keys[i].id].user == user
    {
      assert keys[i] in Members(keys);
    }
  }

  lemma PagePresent(db: Db, user: Uuid, cur: Option<Key>, limit: nat)
    ensures Present(db, Page(db, user, cur, limit))
  {
    var all := Sorted(Remaining(UserKeys(db, user), cur));
    SortedIs(Remaining(UserKeys(db, user), cur));
    SubsetPresent(db, user, all);
  }

  lemma NextPresent(db: Db, user: Uuid, cur: Option<Key>, limit: nat)
    requires limit > 0 && InRange(db) && Next(db, user, cur, limit).Some?
    ensures Encodable(Next(db, user, cur, limit).value)
  {
    var all := Sorted(Remaining(UserKeys(db, user), cur));
    SortedIs(Remaining(UserKeys(db, user), cur));
    SubsetPresent(db, user, all);
  }

  function PageLimit(limit: int): (n: nat)
    ensures limit <= 0 ==> n == 20
    ensures 1 <= limit <= 100 ==> n == limit
    ensures limit > 100 ==> n == 100
  {
    var positive := if limit <= 0 then DEFAULT_LIST_LIMIT else limit;
    if positive > MAX_LIST_LIMIT then MAX_LIST_LIMIT else positive
  }

  function Token(next: Option<Key>): string
    requires next.Some? ==> Encodable(next.value)
  {
    if next.Some? then Encode(next.value) else ""
  }

  /** The page after a cursor, as the service answers it. */
  function Listed(db: Db, user: Uuid, cur: Option<Key>, limit: nat): ListResult
    requires limit > 0 && InRange(db)
  {
    PagePresent(db, user, cur, limit);
    var next := Next(db, user, cur, limit);
    assert next.Some? ==> Encodable(next.value) by { if next.Some? { NextPresent(db, user, cur, limit); } }
    ListResult(Rows(db, Page(db, user, cur, limit)), Token(next))
  }

  /** a's row is listed before b's: it was created later, or at the same time with the greater id. */
  predicate Newer(db: Db, a: Uuid, b: Uuid)
    requires a in db.codes && b in db.codes
  {
    db.codes[a].createdAt > db.codes[b].createdAt || (db.codes[a].createdAt == db.codes[b].createdAt && a > b)
  }

  /** The row comes after the cursor, if there is one. */
  predicate Below(db: Db, id: Uuid, cur: Option<Key>)
    requires id in db.codes
  {
    cur.Some? ==>
      || db.codes[id].createdAt < cur.value.createdAt
      || (db.codes[id].createdAt == cur.value.createdAt && id < cur.value.id)
  }

  predicate OnPage(codes: seq<Code>, id: Uuid) {
    exists i :: 0 <= i < |codes| && codes[i].id == id
  }

  lemma KeyMeans(db: Db, user: Uuid, cur: Option<Key>, id: Uuid)
    requires id in db.codes
    ensures KeyOf(id, db.codes[id]) in Remaining(UserKeys(db, user), cur)
            <==> db.codes[id].user == user && Below(db, id, cur)
  {
  }

  /** Positions of a page and its keys. */
  lemma PageHas(db: Db, user: Uuid, cur: Option<Key>, limit: nat, id: Uuid)
    requires limit > 0 && InRange(db) && id in db.codes
    ensures OnPage(Listed(db, user, cur, limit).codes, id)
            <==> KeyOf(id, db.codes[id]) in Members(Page(db, user, cur, limit))
  {
    hide Page, Next, UserKeys;
    var page, codes := Page(db, user, cur, limit), Listed(db, user, cur, limit).codes;
    PagePresent(db, user, cur, limit);
    if OnPage(codes, id) {
      var i :| 0 <= i < |codes| && codes[i].id == id;
      assert page[i] == KeyOf(id, db.codes[id]) && page[i] in page;
    }
    if KeyOf(id, db.codes[id]) in Members(page) {
      var i :| 0 <= i < |page| && page[i] == KeyOf(id, db.codes[id]);
      assert codes[i].id == id;
    }
  }

  /** The rows of a page: the user's own, after the cursor, newest first, each as the tables hold it. */
  lemma ListedRows(db: Db, user: Uuid, cur: Option<Key>, limit: nat)
    requires limit > 0 && InRange(db)
    ensures var codes := Listed(db, user, cur, limit).codes;
            && |codes| <= limit
            && (forall i :: 0 <= i < |codes| ==>
                  && codes[i].id in db.codes && codes[i].row == db.codes[codes[i].id] && codes[i].row.user == user
                  && codes[i].dynamic == (if codes[i].id in db.dynamics then Some(db.dynamics[codes[i].id]) else None)
                  && Below(db, codes[i].id, cur))
            && (forall i, j :: 0 <= i < j < |codes| ==> Newer(db, codes[i].id, codes[j].id))
  {
    hide Page, Next, UserKeys, Remaining, Token, Below;
    var page, codes := Page(db, user, cur, limit), Listed(db, user, cur, limit).codes;
    PagePresent(db, user, cur, limit);
    PageExact(db, user, cur, limit);
    forall i | 0 <= i < |codes| ensures db.codes[codes[i].id].user == user && Below(db, codes[i].id, cur) {
      assert page[i] in Members(page);
      KeyMeans(db, user, cur, codes[i].id);
    }
  }

  lemma LeftOutIsBeyond(db: Db, user: Uuid, cur: Option<Key>, limit: nat, id: Uuid)
    requires limit > 0 && InRange(db) && id in db.codes && db.codes[id].user == user && Below(db, id, cur)
    requires !OnPage(Listed(db, user, cur, limit).codes, id)
    ensures Next(db, user, cur, limit).Some?
    ensures Before(KeyOf(id, db.codes[id]), Next(db, user, cur, limit).value)
  {
    hide Page, Next, UserKeys, OnPage, Before;
    PageExact(db, user, cur, limit);
    KeyMeans(db, user, cur, id);
    PageHas(db, user, cur, limit, id);
  }

  /** At most limit rows, and none left out unless the page is full of newer ones. */
  lemma ListedLeavesOut(db: Db, user: Uuid, cur: Option<Key>, limit: nat, id: Uuid)
    requires limit > 0 && InRange(db) && id in db.codes && db.codes[id].user == user && Below(db, id, cur)
    ensures var codes := Listed(db, user, cur, limit).codes;
            OnPage(codes, id)
            || (|codes| == limit
                && forall i :: 0 <= i < limit ==> codes[i].id in db.codes && Newer(db, codes[i].id, id))
  {
    hide Page, Next, UserKeys, Remaining, Token, OnPage, Below;
    var page, codes := Page(db, user, cur, limit), Listed(db, user, cur, limit).codes;
    if !OnPage(codes, id) {
      LeftOutIsBeyond(db, user, cur, limit, id);
      PagePresent(db, user, cur, limit);
      PageExact(db, user, cur, limit);
      forall i | 0 <= i < limit ensures codes[i].id in db.codes && Newer(db, codes[i].id, id) {
        assert page[i] in page;
      }
    }
  }

  /** The token is empty exactly when the page leaves nothing out. */
  lemma TokenIffMore(db: Db, user: Uuid, cur: Option<Key>, limit: nat)
    requires limit > 0 && InRange(db)
    ensures Listed(db, user, cur, limit).nextCursor == "" <==>
            forall id <- db.codes :: db.codes[id].user == user && Below(db, id, cur) ==>
              OnPage(Listed(db, user, cur, limit).codes, id)
  {
    hide Page, Next, UserKeys, OnPage, Below, Before;
    var next := Next(db, user, cur, limit);
    PageExact(db, user, cur, limit);
    if next.Some? {
      NextPresent(db, user, cur, limit);
      var k :| k in Remaining(UserKeys(db, user), next);
      BeyondIsBelow(db, user, cur, next.value, k);
      KeyMeans(db, user, cur, k.id);
      PageHas(db, user, cur, limit, k.id);
    }
    TokenRoundTrip(next);
    forall id | id in db.codes && db.codes[id].user == user && Below(db, id, cur)
      ensures OnPage(Listed(db, user, cur, limit).codes, id) || next.Some?
    {
      if !OnPage(Listed(db, user, cur, limit).codes, id) {
        LeftOutIsBeyond(db, user, cur, limit, id);
      }
    }
  }

  lemma BeyondIsBelow(db: Db, user: Uuid, cur: Option<Key>, next: Key, k: Key)
    requires k in Remaining(UserKeys(db, user), Some(next)) && (cur.Some? ==> Before(next, cur.value))
    ensures k in Remaining(UserKeys(db, user), cur) && k.id in db.codes && k == KeyOf(k.id, db.codes[k.id])
  {
  }

  /** One row beyond the page tells whether there is a next page, and the page is the rest. */
  lemma OneExtra(db: Db, user: Uuid, cur: Option<Key>, limit: nat)
    requires limit > 0
    ensures var more, page := Page(db, user, cur, limit + 1), Page(db, user, cur, limit);
            && (|more| > limit <==> Next(db, user, cur, limit).Some?)
            && page == Take(more, limit)
            && (|more| > limit ==> more[limit - 1] == Next(db, user, cur, limit).value)
  {
    var all := Sorted(Remaining(UserKeys(db, user), cur));
    if |all| > limit + 1 {
      assert all[..limit + 1][..limit] == all[..limit];
    }
  }

  /** The page and its token, from the rows fetched. */
  lemma Trimmed(db: Db, user: Uuid, cur: Option<Key>, limit: nat, items: seq<Code>)
    requires limit > 0 && InRange(db) && Present(db, Page(db, user, cur, limit + 1))
    requires items == Rows(db, Page(db, user, cur, limit + 1))
    ensures |items| <= limit ==> Listed(db, user, cur, limit) == ListResult(items, "")
    ensures |items| > limit ==>
              var last := Key(items[limit - 1].row.createdAt, items[limit - 1].id);
              Encodable(last) && Listed(db, user, cur, limit) == ListResult(items[..limit], Encode(last))
  {
    OneExtra(db, user, cur, limit);
    PagePresent(db, user, cur, limit);
    if |items| > limit {
      NextPresent(db, user, cur, limit);
    }
  }

  /** The cursor a request's token stands for; the empty token asks for the first page. */
  function CursorOf(token: string): Result<Option<Key>, ListError> {
    if token == "" then Ok(None)
    else match Decode(token) case Some(c) => Ok(Some(c)) case None => Err(InvalidCursor)
  }

  /** The token a page ends with leads to exactly the cursor it was made from. */
  lemma {:induction false} TokenRoundTrip(next: Option<Key>)
    requires next.Some? ==> Encodable(next.value)
    ensures CursorOf(Token(next)) == Ok(next)
    ensures Token(next) == "" <==> next.None?
  {
    if next.Some? {
      Cursor.RoundTrip(next.value);
    }
  }

  function KeysOf(codes: seq<Code>): seq<Key> {
    seq(|codes|, i requires 0 <= i < |codes| => KeyOf(codes[i].id, codes[i].row))
  }

  lemma KeysOfRows(db: Db, keys: seq<Key>)
    requires Present(db, keys)
    ensures KeysOf(Rows(db, keys)) == keys
  {
  }

  /** The pages a client gets that sends each page's token back, until a token is refused or a page has none. */
  function TokenWalk(snapshots: seq<Db>, user: Uuid, token: string, limit: int): seq<seq<Key>>
    requires forall db <- snapshots :: InRange(db)
  {
    if snapshots == [] || CursorOf(token).Err? then []
    else
      var page := Listed(snapshots[0], user, CursorOf(token).value, PageLimit(limit));
      [KeysOf(page.codes)]
      + if page.nextCursor == "" then [] else TokenWalk(snapshots[1..], user, page.nextCursor, limit)
  }

  /**
   Going through tokens loses nothing: no token is refused, and the pages are those of the walk over cursors, whose
   order, completeness and length are proved in Paging.
   */
  lemma {:induction false} TokenWalkIsWalk(snapshots: seq<Db>, user: Uuid, cur: Option<Key>, limit: int)
    requires forall db <- snapshots :: InRange(db)
    requires cur.Some? ==> Encodable(cur.value)
    ensures TokenWalk(snapshots, user, Token(cur), limit) == Walk(snapshots, user, cur, PageLimit(limit))
  {
    TokenRoundTrip(cur);
    if snapshots != [] {
      var db, n := snapshots[0], PageLimit(limit);
      var next := Next(db, user, cur, n);
      PagePresent(db, user, cur, n);
      KeysOfRows(db, Page(db, user, cur, n));
      if next.Some? {
        NextPresent(db, user, cur, n);
        TokenRoundTrip(next);
        TokenWalkIsWalk(snapshots[1..], user, next, limit);
      }
    }
  }
}
