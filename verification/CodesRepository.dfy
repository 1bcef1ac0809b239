/** The repository's statements as methods over the tables: backend/internal/codes/repository.go. */
module CodesRepository {
  import opened Basics
  import opened Rfc3339
  import opened Cursor
  import opened Tables
  import opened Paging
  import opened Listing
  import opened Protocol

  // Missing is ErrNotFound, SlugTaken is ErrSlugTaken; everything else is wrapped and opaque.
  datatype RepoError = Missing | SlugTaken | DatabaseError

  /** *Code: the service fills in the draft, the repository the generated fields. */
  class CodeRecord {
    var id: Uuid
    var row: CodeRow
    var dynamic: Option<DynamicRow>

    constructor (draft: Draft, isDynamic: bool)
      ensures id == 0 && dynamic == None && row == NewRow(draft, isDynamic, 0)
    {
      id, dynamic, row := 0, None, NewRow(draft, isDynamic, 0);
    }

    function DraftOf(): Draft
      reads this
    {
      Draft(row.user, row.kind, row.payload, row.caption)
    }

    function AsCode(): Code
      reads this
    {
      Code(id, row, dynamic)
    }
  }

  /** Postgres and its clock; the fault of each call says what the caller gets to see. */
  class Repository {
    var db: Db
    var now: Instant

    constructor (start: Instant)
      ensures db == EMPTY && now == start
    {
      db, now := EMPTY, start;
    }

    /** Inserts a static code and copies the generated fields back onto c. */
    method Create(c: CodeRecord, newId: Uuid, fault: Fault) returns (err: Option<RepoError>)
      requires newId !in db.issued && !c.row.isDynamic && c.dynamic.None?
      modifies this`db, c
      ensures var w := InsertStatic(newId, old(c.DraftOf()), now);
              && db == (if fault.Failed? then old(db) else Apply(old(db), w))
              && (err.None? <==> fault.Fine? && Accepts(old(db), w))
              && (err.Some? ==> err == Some(DatabaseError))
      ensures err.None? ==> newId in db.codes && db.codes[newId] == c.row && c.id == newId
      ensures fault.Failed? || !KnownKind(old(c.row.kind)) ==> db == old(db)
      ensures !fault.Failed? && KnownKind(old(c.row.kind)) ==>
                && db.codes == old(db.codes)[newId := old(c.row).(createdAt := now, updatedAt := now)]
                && db.dynamics == old(db.dynamics) && db.bySlug == old(db.bySlug)
      ensures c.DraftOf() == old(c.DraftOf()) && c.dynamic == None && c.row.isDynamic == old(c.row.isDynamic)
      ensures old(Sound(db)) ==> Sound(db)
      ensures old(Sound(db)) && err.None? ==> c.AsCode() == Joined(db, newId)
    {
      var w := InsertStatic(newId, c.DraftOf(), now);
      assert old(Sound(db)) ==> Sound(Apply(db, w)) by {
        if Sound(db) { ApplySound(db, w); }
      }
      if fault.Failed? || !KnownKind(c.row.kind) {
        return Some(DatabaseError);
      }
      db := db.(codes := db.codes[newId := NewRow(c.DraftOf(), c.row.isDynamic, now)], issued := db.issued + {newId});
      if fault.Unreported? {
        return Some(DatabaseError);
      }
      c.id := newId;
      c.row := c.row.(createdAt := now, updatedAt := now);
      err := None;
    }

    /**
     One transaction for both rows. A taken slug rolls the code row back, but its generated fields stay on c; the next
     attempt overwrites them.
     */
    method CreateDynamic(c: CodeRecord, slug: string, destination: string, newId: Uuid, fault: Fault)
      returns (err: Option<RepoError>)
      requires newId !in db.issued && c.dynamic.None?
      modifies this`db, c
      ensures var w := InsertDynamic(newId, old(c.DraftOf()), slug, destination, now);
              && db == (if fault.Failed? then old(db) else Apply(old(db), w))
              && (err.None? <==> fault.Fine? && Accepts(old(db), w))
      ensures err == Some(SlugTaken) <==> !fault.Failed? && KnownKind(old(c.row.kind)) && slug in old(db.bySlug)
      ensures err != Some(Missing)
      ensures err.None? ==> newId in db.codes && c.AsCode() == Joined(db, newId)
      ensures fault.Failed? || !Accepts(old(db), InsertDynamic(newId, old(c.DraftOf()), slug, destination, now)) ==>
                db == old(db)
      ensures !fault.Failed? && Accepts(old(db), InsertDynamic(newId, old(c.DraftOf()), slug, destination, now)) ==>
                && db.codes == old(db.codes)[newId := old(c.row).(isDynamic := true, createdAt := now,
                                                                  updatedAt := now)]
                && db.dynamics == old(db.dynamics)[newId := DynamicRow(slug, destination, now)]
                && db.bySlug == old(db.bySlug)[slug := newId]
      ensures err.Some? ==> c.dynamic == None
      ensures c.DraftOf() == old(c.DraftOf())
      ensures old(Sound(db)) && old(c.row.kind) == "url" ==> Sound(db)
    {
      var w := InsertDynamic(newId, c.DraftOf(), slug, destination, now);
      assert old(Sound(db)) && c.row.kind == "url" ==> Sound(Apply(db, w)) by {
        if Sound(db) && c.row.kind == "url" { ApplySound(db, w); }
      }
      if fault.Failed? || !KnownKind(c.row.kind) {
        return Some(DatabaseError);
      }
      c.id := newId;
      c.row := c.row.(createdAt := now, updatedAt := now);
      if slug in db.bySlug {
        return Some(SlugTaken);
      }
      var dyn := DynamicRow(slug, destination, now);
      db := Db(db.codes[newId := c.row.(isDynamic := true)], db.dynamics[newId := dyn],
               db.bySlug[slug := newId], db.issued + {newId});
      if fault.Unreported? {
        return Some(DatabaseError);
      }
      c.row := c.row.(isDynamic := true);
      c.dynamic := Some(dyn);
      err := None;
    }

    /** UPDATE dynamic_codes: not scoped to a user; no row is ErrNotFound. */
    method UpdateDestination(id: Uuid, destination: string, fault: Fault) returns (err: Option<RepoError>)
      modifies this`db
      ensures db == (if fault.Failed? then old(db) else Apply(old(db), Tables.UpdateDestination(id, destination, now)))
      ensures err.None? <==> fault.Fine? && id in old(db.dynamics)
      ensures err == Some(Missing) <==> fault.Fine? && id !in old(db.dynamics)
      ensures fault.Failed? || id !in old(db.dynamics) ==> db == old(db)
      ensures !fault.Failed? && id in old(db.dynamics) ==>
                && db.dynamics == old(db.dynamics)[id := DynamicRow(old(db.dynamics)[id].slug, destination, now)]
                && db.codes == old(db.codes) && db.bySlug == old(db.bySlug)
    {
      if fault.Failed? {
        return Some(DatabaseError);
      }
      var rows := 0;
      if id in db.dynamics {
        db := db.(dynamics := db.dynamics[id := db.dynamics[id].(destination := destination, updatedAt := now)]);
        rows := 1;
      }
      if fault.Unreported? {
        return Some(DatabaseError);
      }
      err := if rows == 0 then Some(Missing) else None;
    }

    method UpdateLabel(user: Uuid, id: Uuid, caption: Option<string>, fault: Fault) returns (err: Option<RepoError>)
      modifies this`db
      ensures db == (if fault.Failed? then old(db) else Apply(old(db), Tables.UpdateLabel(user, id, caption, now)))
      ensures err.None? <==> fault.Fine? && old(Owned(db, user, id))
      ensures err == Some(Missing) <==> fault.Fine? && !old(Owned(db, user, id))
      ensures fault.Failed? || !old(Owned(db, user, id)) ==> db == old(db)
      ensures !fault.Failed? && old(Owned(db, user, id)) ==>
                && db.codes == old(db.codes)[id := old(db.codes)[id].(caption := caption, updatedAt := now)]
                && db.dynamics == old(db.dynamics) && db.bySlug == old(db.bySlug)
    {
      if fault.Failed? {
        return Some(DatabaseError);
      }
      var rows := 0;
      if Owned(db, user, id) {
        db := db.(codes := db.codes[id := db.codes[id].(caption := caption, updatedAt := now)]);
        rows := 1;
      }
      if fault.Unreported? {
        return Some(DatabaseError);
      }
      err := if rows == 0 then Some(Missing) else None;
    }

    /** DELETE FROM codes, cascading to dynamic_codes. */
    method Delete(user: Uuid, id: Uuid, fault: Fault) returns (err: Option<RepoError>)
      modifies this`db
      ensures db == (if fault.Failed? then old(db) else Apply(old(db), DeleteCode(user, id)))
      ensures err.None? <==> fault.Fine? && old(Owned(db, user, id))
      ensures err == Some(Missing) <==> fault.Fine? && !old(Owned(db, user, id))
      ensures fault.Failed? || !old(Owned(db, user, id)) ==> db == old(db)
      ensures !fault.Failed? && old(Owned(db, user, id)) ==>
                && db.codes == old(db.codes) - {id} && db.dynamics == old(db.dynamics) - {id}
                && (forall slug :: slug in db.bySlug <==>
                      slug in old(db.bySlug) && !(id in old(db.dynamics) && old(db.dynamics)[id].slug == slug))
    {
      if fault.Failed? {
        return Some(DatabaseError);
      }
      var rows := 0;
      if Owned(db, user, id) {
        if id in db.dynamics {
          var slug := db.dynamics[id].slug;
          db := db.(dynamics := db.dynamics - {id}, bySlug := db.bySlug - {slug});
        }
        db := db.(codes := db.codes - {id});
        rows := 1;
      }
      if fault.Unreported? {
        return Some(DatabaseError);
      }
      err := if rows == 0 then Some(Missing) else None;
    }

    /** The owner-scoped join; reads fail or not, whatever their fault is called. */
    method Get(user: Uuid, id: Uuid, fault: Fault) returns (r: Result<Code, RepoError>)
      ensures r == if !fault.Fine? then Err(DatabaseError)
                   else match GetByID(db, user, id) case Some(c) => Ok(c) case None => Err(Missing)
    {
      if !fault.Fine? {
        return Err(DatabaseError);
      }
      var found := GetByID(db, user, id);
      r := if found.Some? then Ok(found.value) else Err(Missing);
    }

    /** The rows after the cursor, newest first, scanned one by one; one row that fails to scan fails the call. */
    method List(user: Uuid, cur: Option<Key>, limit: nat, fault: Fault) returns (r: Result<seq<Code>, RepoError>)
      ensures r.Err? <==> !fault.Fine?
      ensures r.Err? ==> r.error == DatabaseError
      ensures r.Ok? ==> Present(db, Page(db, user, cur, limit)) && r.value == Rows(db, Page(db, user, cur, limit))
    {
      PagePresent(db, user, cur, limit);
      if !fault.Fine? {
        return Err(DatabaseError);
      }
      var rows := Page(db, user, cur, limit);
      var out := [];
      var i := 0;
      while i < |rows|
        invariant i <= |rows| && |out| == i
        invariant forall k :: 0 <= k < i ==> out[k] == Joined(db, rows[k].id)
      {
        out := out + [Joined(db, rows[i].id)];
        i := i + 1;
      }
      r := Ok(out);
    }
  }
}
