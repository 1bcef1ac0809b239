/**
 The app's controllers as objects over the API: codes_list_controller.dart and code_detail_controller.dart of
 mobile/lib/features/codes/application, and save of
 mobile/lib/features/generator/application/generator_controller.dart. A call that throws has failed somewhere on the
 way; its faults say where.
 */
module ClientControllers {
  import opened Basics
  import opened Cursor
  import opened Tables
  import opened Paging
  import opened Listing
  import opened Safety
  import opened Protocol
  import opened CodesService
  import opened ClientList
  import Payload

  /** A call that throws leaves either no trace or a write whose answer was lost; None stands for throwing. */
  class CodesApi {
    const service: Service
    const user: Uuid

    constructor (service: Service, user: Uuid)
      ensures this.service == service && this.user == user
    {
      this.service, this.user := service, user;
    }

    ghost predicate Valid()
      reads service.repo, service.cache, service.safety
    {
      service.Valid()
    }

    /** One page; an empty cursor is left out of the request, and so is a limit. */
    method List(cursor: Option<string>, fault: Fault) returns (r: Option<Paginated>)
      requires InRange(service.repo.db)
      ensures var at := CursorOf(if cursor.Some? then cursor.value else "");
              r == if at.Err? || !fault.Fine? then None
                   else Some(FromServer(Listed(service.repo.db, user, at.value, DEFAULT_LIST_LIMIT)))
    {
      var page := service.List(user, if cursor.Some? then cursor.value else "", 0, fault);
      r := if page.Err? then None else Some(FromServer(page.value));
    }

    method Create(draft: Draft, isDynamic: bool, payloadUrl: Option<string>, get: Fault, set_: Fault,
                  attempts: seq<Attempt>)
      returns (r: Option<Code>, ghost w: Write)
      requires Valid() && draft.user == user && |attempts| == MAX_SLUG_ATTEMPTS
      requires forall a <- attempts :: a.id !in service.repo.db.issued
      modifies service.repo`db, service.safety`verdicts
      ensures Valid()
      ensures r.Some? <==> Creates(service.safety.checker, old(service.repo.db), draft, isDynamic, payloadUrl, attempts)
      ensures r.Some? ==> IsInsert(w) && w.draft == draft && w.now == service.repo.now
                          && Accepts(old(service.repo.db), w) && service.repo.db == Apply(old(service.repo.db), w)
                          && r.value == Joined(service.repo.db, w.id)
    {
      var c := service.Create(draft, isDynamic, payloadUrl, get, set_, attempts);
      if c.Err? {
        w := DeleteCode(user, 0);
        return None, w;
      }
      w := if isDynamic then InsertDynamic(c.value.id, draft, c.value.dynamic.value.slug, payloadUrl.value,
                                           service.repo.now)
           else InsertStatic(c.value.id, draft, service.repo.now);
      r := Some(c.value.AsCode());
    }

    method Update(id: Uuid, caption: Option<string>, destination: Option<string>, f: UpdateFaults)
      returns (r: Option<Code>)
      requires Valid()
      modifies service.repo`db, service.cache`entries, service.safety`verdicts
      ensures Valid()
      ensures r.Some? <==> Updates(service.safety.checker, old(service.repo.db), user, id, caption, destination, f)
      ensures r.Some? && caption.Some? ==>
                && r.value.row.caption == caption && id in old(service.repo.db.codes)
                && service.repo.db.codes
                   == old(service.repo.db.codes)[id := old(service.repo.db.codes)[id].(caption := caption,
                                                                                   updatedAt := service.repo.now)]
      ensures r.Some? && caption.None? ==> service.repo.db.codes == old(service.repo.db.codes)
      ensures r.Some? && destination.Some? ==>
                && r.value.dynamic.Some? && r.value.dynamic.value.destination == destination.value
                && id in old(service.repo.db.dynamics)
                && service.repo.db.dynamics
                   == old(service.repo.db.dynamics)[id := old(service.repo.db.dynamics)[id].(
                        destination := destination.value, updatedAt := service.repo.now)]
      ensures r.Some? && destination.None? ==> service.repo.db.dynamics == old(service.repo.db.dynamics)
      ensures r.Some? ==> Owned(service.repo.db, user, id) && r.value == Joined(service.repo.db, id)
                          && service.repo.db == Changed(old(service.repo.db), user, id, caption, destination,
                                                        service.repo.now)
      ensures var db := old(service.repo.db);
              service.repo.db == if f.load.Fine? && Owned(db, user, id)
                                 then AfterChange(service.safety.checker, db, user, id, caption, destination, f,
                                                  service.repo.now)
                                 else db
    {
      hide Apply, Sound, VerdictOf, Changed, AfterChange;
      var c := service.Update(user, id, caption, destination, f);
      r := if c.Err? then None else Some(c.value);
    }

    method Delete(id: Uuid, load: Fault, write: Fault, invalidate: Fault) returns (thrown: bool)
      requires Valid()
      modifies service.repo`db, service.cache`entries
      ensures Valid()
      ensures !thrown <==> load.Fine? && Owned(old(service.repo.db), user, id) && write.Fine?
      ensures service.repo.db == if load.Fine? && Owned(old(service.repo.db), user, id) && !write.Failed?
                                 then Apply(old(service.repo.db), DeleteCode(user, id)) else old(service.repo.db)
      ensures !thrown ==> service.repo.db.codes == old(service.repo.db.codes) - {id}
                          && service.repo.db.dynamics == old(service.repo.db.dynamics) - {id}
    {
      hide Apply, Sound, VerdictOf;
      var err := service.Delete(user, id, load, write, invalidate);
      thrown := err.Some?;
    }
  }

  class CodesListController {
    const api: CodesApi
    var state: Option<Paginated>
    var loadingMore: bool

    constructor (api: CodesApi)
      ensures this.api == api && state == None && !loadingMore
    {
      this.api, state, loadingMore := api, None, false;
    }

    /** What is shown, if anything, mirrors the user's rows. */
    ghost predicate InSync()
      reads this, api.service.repo
    {
      state.Some? ==> Mirrors(api.service.repo.db, api.user, state.value)
    }

    /** A failed reload keeps the data that is visible. */
    method Refresh(fault: Fault)
      requires InRange(api.service.repo.db)
      modifies this`state
      ensures state == if fault.Fine?
                       then Some(FromServer(Listed(api.service.repo.db, api.user, None, DEFAULT_LIST_LIMIT)))
                       else old(state)
      ensures fault.Fine? || old(InSync()) ==> InSync()
    {
      hide Listed, Mirrors;
      RefreshMirrors(api.service.repo.db, api.user, DEFAULT_LIST_LIMIT);
      var page := api.List(None, fault);
      if page.Some? {
        state := page;
      }
    }

    /** The list to extend, unless there is no next page or one is already on its way. */
    method BeginLoad() returns (captured: Option<Paginated>)
      modifies this`loadingMore
      ensures captured.Some? <==> state.Some? && state.value.HasMore() && !old(loadingMore)
      ensures captured.Some? ==> captured == state
      ensures loadingMore == (old(loadingMore) || captured.Some?)
    {
      var current := state;
      if current.None? || !current.value.HasMore() || loadingMore {
        return None;
      }
      loadingMore := true;
      captured := current;
    }

    /** The page that came, if one did, goes behind the list that was captured, whatever is shown by now. */
    method EndLoad(captured: Paginated, next: Option<Paginated>)
      modifies this
      ensures !loadingMore
      ensures state == if next.Some? then Some(Appended(captured, next.value)) else old(state)
      ensures next.Some? ==> state == Some(Paginated(captured.codes + next.value.codes, next.value.nextCursor))
    {
      if next.Some? {
        state := Some(Paginated(captured.codes + next.value.codes, next.value.nextCursor));
      }
      loadingMore := false;
    }

    /** Both, with nothing in between. */
    method LoadMore(fault: Fault) returns (thrown: bool)
      requires InRange(api.service.repo.db)
      modifies this
      ensures loadingMore == old(loadingMore)
      ensures old(state).None? || !old(state).value.HasMore() || old(loadingMore) ==> !thrown && state == old(state)
      ensures old(state).Some? && old(state).value.HasMore() && !old(loadingMore) ==>
                var p := old(state).value;
                && (thrown <==> !fault.Fine? || Position(p).Err?)
                && state == Some(if thrown then p
                                 else Appended(p, FromServer(Listed(api.service.repo.db, api.user, Position(p).value,
                                                                    DEFAULT_LIST_LIMIT))))
      ensures old(InSync()) ==> InSync()
    {
      hide Listed, Mirrors, Appended, CursorOf;
      var captured := BeginLoad();
      if captured.None? {
        return false;
      }
      var next := api.List(captured.value.nextCursor, fault);
      if next.Some? && Mirrors(api.service.repo.db, api.user, captured.value) {
        MirrorsHasPosition(api.service.repo.db, api.user, captured.value);
        AppendMirrors(api.service.repo.db, api.user, captured.value, DEFAULT_LIST_LIMIT);
      }
      EndLoad(captured.value, next);
      thrown := next.None?;
    }

    method OptimisticallyAddCode(code: Code)
      modifies this`state
      ensures state == Some(Added(old(state), code))
      ensures old(state).None? ==> state == Some(Paginated([code], None))
      ensures old(state).Some? ==>
                state == Some(Paginated([code] + old(state).value.codes, old(state).value.nextCursor))
    {
      var current := state;
      if current.None? {
        state := Some(Paginated([code], None));
        return;
      }
      state := Some(Paginated([code] + current.value.codes, current.value.nextCursor));
    }

    method OptimisticallyRemoveCode(id: Uuid)
      modifies this`state
      ensures state == if old(state).Some? then Some(Removed(old(state).value, id)) else None
      ensures old(state).Some? ==> state.value.nextCursor == old(state).value.nextCursor
    {
      var current := state;
      if current.None? {
        return;
      }
      state := Some(Paginated(Without(current.value.codes, id), current.value.nextCursor));
    }

    /** The codes in order, the edited one in its new form. */
    method ReplaceCode(code: Code)
      modifies this`state
      ensures state == if old(state).Some? then Some(Replaced(old(state).value, code)) else None
      ensures old(state).Some? ==>
                && |state.value.codes| == |old(state).value.codes|
                && state.value.nextCursor == old(state).value.nextCursor
                && forall i :: 0 <= i < |state.value.codes| ==>
                     state.value.codes[i] == if old(state).value.codes[i].id == code.id then code
                                             else old(state).value.codes[i]
    {
      var current := state;
      if current.None? {
        return;
      }
      var codes := [];
      for i := 0 to |current.value.codes|
        invariant |codes| == i
        invariant forall k :: 0 <= k < i ==>
                    codes[k] == if current.value.codes[k].id == code.id then code else current.value.codes[k]
      {
        var c := current.value.codes[i];
        codes := codes + [if c.id == code.id then code else c];
      }
      assert codes == Replaced(current.value, code).codes;
      state := Some(Paginated(codes, current.value.nextCursor));
    }
  }

  lemma MirrorsHasPosition(db: Db, user: Uuid, p: Paginated)
    requires Mirrors(db, user, p) && p.HasMore()
    ensures Position(p).Ok? && Position(p).value.Some?
  {
  }

  /** One code on the detail screen. */
  class CodeDetailController {
    const id: Uuid
    const api: CodesApi
    const list: CodesListController
    var state: Option<Code>

    constructor (id: Uuid, list: CodesListController, loaded: Option<Code>)
      ensures this.id == id && this.list == list && api == list.api && state == loaded
    {
      this.id, this.list, this.api, state := id, list, list.api, loaded;
    }

    ghost predicate Valid()
      reads api.service.repo, api.service.cache, api.service.safety
    {
      api == list.api && api.Valid()
    }

    /** What is shown while the server is asked. */
    method Show(optimistic: Code) returns (previous: Code)
      requires state.Some?
      modifies this`state
      ensures Some(previous) == old(state) && state == Some(optimistic)
    {
      previous := state.value;
      state := Some(optimistic);
    }

    /** The server's version in detail and list, or, when it threw, what was there before; the list never saw it. */
    method Settle(previous: Code, updated: Option<Code>)
      modifies this`state, list`state
      ensures state == if updated.Some? then updated else Some(previous)
      ensures list.state == if updated.Some? && old(list.state).Some?
                            then Some(Replaced(old(list.state).value, updated.value)) else old(list.state)
    {
      if updated.None? {
        state := Some(previous);
        return;
      }
      state := updated;
      list.ReplaceCode(updated.value);
    }

    /** Shows the label, asks the server, and settles. */
    method UpdateLabel(caption: string, f: UpdateFaults) returns (thrown: bool)
      requires Valid()
      modifies this`state, list`state, api.service.repo`db, api.service.cache`entries, api.service.safety`verdicts
      ensures Valid()
      ensures thrown <==> old(state).Some?
                          && !Updates(api.service.safety.checker, old(api.service.repo.db), api.user, id, Some(caption),
                                      None, f)
      ensures var db := old(api.service.repo.db);
              api.service.repo.db == if old(state).Some? && f.load.Fine? && Owned(db, api.user, id)
                                     then AfterChange(api.service.safety.checker, db, api.user, id, Some(caption),
                                                      None, f, api.service.repo.now)
                                     else db
      ensures thrown ==> state == old(state) && list.state == old(list.state)
      ensures old(state).None? ==> state == None && list.state == old(list.state)
                                   && api.service.repo.db == old(api.service.repo.db)
      ensures old(state).Some? && !thrown ==>
                && api.service.repo.db == Changed(old(api.service.repo.db), api.user, id, Some(caption), None,
                                                  api.service.repo.now)
                && state == GetByID(api.service.repo.db, api.user, id) && state.Some?
                && list.state == if old(list.state).Some? then Some(Replaced(old(list.state).value, state.value))
                                 else None
      ensures old(state).Some? && !thrown ==>
                && state.Some? && state.value.id == id && state.value.row.caption == Some(caption)
                && id in old(api.service.repo.db.codes)
                && api.service.repo.db.codes
                   == old(api.service.repo.db.codes)[id := old(api.service.repo.db.codes)[id].(
                        caption := Some(caption), updatedAt := api.service.repo.now)]
                && api.service.repo.db.dynamics == old(api.service.repo.db.dynamics)
      ensures old(list.InSync()) && !thrown ==> list.InSync()
    {
      hide Apply, Sound, Mirrors, Replaced, Updates, AfterChange;
      if state.None? {
        return false;
      }
      var previous := Show(state.value.(row := state.value.row.(caption := Some(caption))));
      var updated := api.Update(id, Some(caption), None, f);
      if updated.Some? {
        EditShown(old(api.service.repo.db), Tables.UpdateLabel(api.user, id, Some(caption), api.service.repo.now),
                  api.user, list.state);
      }
      Settle(previous, updated);
      thrown := updated.None?;
    }

    /** The same for a dynamic code's destination; nothing happens for a code that shows none. */
    method UpdateDestination(destination: string, f: UpdateFaults) returns (thrown: bool)
      requires Valid()
      modifies this`state, list`state, api.service.repo`db, api.service.cache`entries, api.service.safety`verdicts
      ensures Valid()
      ensures thrown <==> old(state).Some? && old(state).value.dynamic.Some?
                          && !Updates(api.service.safety.checker, old(api.service.repo.db), api.user, id, None,
                                      Some(destination), f)
      ensures var db := old(api.service.repo.db);
              api.service.repo.db == if old(state).Some? && old(state).value.dynamic.Some? && f.load.Fine?
                                        && Owned(db, api.user, id)
                                     then AfterChange(api.service.safety.checker, db, api.user, id, None,
                                                      Some(destination), f, api.service.repo.now)
                                     else db
      ensures thrown ==> state == old(state) && list.state == old(list.state)
      ensures old(state).None? || old(state).value.dynamic.None? ==>
                state == old(state) && list.state == old(list.state)
                && api.service.repo.db == old(api.service.repo.db)
      ensures old(state).Some? && old(state).value.dynamic.Some? && !thrown ==>
                && api.service.repo.db == Changed(old(api.service.repo.db), api.user, id, None, Some(destination),
                                                  api.service.repo.now)
                && state == GetByID(api.service.repo.db, api.user, id) && state.Some?
                && list.state == if old(list.state).Some? then Some(Replaced(old(list.state).value, state.value))
                                 else None
      ensures old(state).Some? && old(state).value.dynamic.Some? && !thrown ==>
                && state.Some? && state.value.id == id
                && state.value.dynamic.Some? && state.value.dynamic.value.destination == destination
                && id in old(api.service.repo.db.dynamics)
                && api.service.repo.db.dynamics
                   == old(api.service.repo.db.dynamics)[id := old(api.service.repo.db.dynamics)[id].(
                        destination := destination, updatedAt := api.service.repo.now)]
                && api.service.repo.db.codes == old(api.service.repo.db.codes)
      ensures old(list.InSync()) && !thrown ==> list.InSync()
    {
      hide Apply, Sound, Mirrors, Replaced, Updates, AfterChange;
      if state.None? || state.value.dynamic.None? {
        return false;
      }
      var shown := state.value.dynamic.value.(destination := destination);
      var previous := Show(state.value.(dynamic := Some(shown)));
      var updated := api.Update(id, None, Some(destination), f);
      if updated.Some? {
        EditShown(old(api.service.repo.db), Tables.UpdateDestination(id, destination, api.service.repo.now), api.user,
                  list.state);
      }
      Settle(previous, updated);
      thrown := updated.None?;
    }

    /** Off the server first, then off the list. */
    method Delete(load: Fault, write: Fault, invalidate: Fault) returns (thrown: bool)
      requires Valid()
      modifies list`state, api.service.repo`db, api.service.cache`entries
      ensures Valid()
      ensures !thrown <==> load.Fine? && Owned(old(api.service.repo.db), api.user, id) && write.Fine?
      ensures api.service.repo.db == if load.Fine? && Owned(old(api.service.repo.db), api.user, id) && !write.Failed?
                                     then Apply(old(api.service.repo.db), DeleteCode(api.user, id))
                                     else old(api.service.repo.db)
      ensures thrown ==> list.state == old(list.state)
      ensures !thrown ==>
                && api.service.repo.db == Apply(old(api.service.repo.db), DeleteCode(api.user, id))
                && list.state == if old(list.state).Some? then Some(Removed(old(list.state).value, id)) else None
      ensures old(list.InSync()) && !thrown ==> list.InSync()
    {
      hide Apply, Sound, Mirrors, Removed, VerdictOf;
      thrown := api.Delete(id, load, write, invalidate);
      if thrown {
        return;
      }
      if list.state.Some? && Mirrors(old(api.service.repo.db), api.user, list.state.value) {
        RemoveMirrors(old(api.service.repo.db), api.user, list.state.value, id);
      }
      list.OptimisticallyRemoveCode(id);
    }
  }

  lemma EditShown(db: Db, w: Write, user: Uuid, list: Option<Paginated>)
    requires Sound(db) && (w.UpdateLabel? || w.UpdateDestination?) && Owned(Apply(db, w), user, w.id)
    ensures list.Some? && Mirrors(db, user, list.value) ==>
              Mirrors(Apply(db, w), user, Replaced(list.value, Joined(Apply(db, w), w.id)))
  {
    hide Apply, Sound, Mirrors, Replaced;
    ChangedIsEdit(db, w, user);
    if list.Some? && Mirrors(db, user, list.value) {
      ReplaceMirrors(db, Apply(db, w), user, list.value, w.id);
    }
  }

  /** The schema takes a code of each type the app knows, and one the app does not. */
  lemma KindsAreKnown(t: Payload.CodeType)
    ensures KnownKind(Payload.Wire(t)) && KnownKind("sms")
    ensures Payload.Wire(t) == "url" <==> t.UrlType?
  {
    assert "url"[0] == 'u' && "wifi"[0] == 'w' && "vcard"[0] == 'v' && "email"[0] == 'e' && "text"[0] == 't';
  }

  /** The generator's save: what the server stored goes on top of the list; nothing happens when it throws. */
  method SaveCode(list: CodesListController, draft: Draft, isDynamic: bool, payloadUrl: Option<string>, get: Fault,
                  set_: Fault, attempts: seq<Attempt>)
    returns (created: Option<Code>)
    requires list.api.Valid() && draft.user == list.api.user && |attempts| == MAX_SLUG_ATTEMPTS
    requires forall a <- attempts :: a.id !in list.api.service.repo.db.issued
    modifies list`state, list.api.service.repo`db, list.api.service.safety`verdicts
    ensures list.api.Valid()
    ensures created.Some? <==> Creates(list.api.service.safety.checker, old(list.api.service.repo.db), draft, isDynamic,
                                       payloadUrl, attempts)
    ensures created.None? ==> list.state == old(list.state)
    ensures created.Some? ==> list.state == Some(Added(old(list.state), created.value))
                              && GetByID(list.api.service.repo.db, draft.user, created.value.id) == created
    ensures created.Some? && old(list.InSync()) ==>
              var before := UserKeys(old(list.api.service.repo.db), draft.user);
              var k := KeyOf(created.value.id, created.value.row);
              list.InSync() <==> if old(list.state).Some? then OnTop(before, Position(old(list.state).value).value, k)
                                 else before == {}
  {
    hide Apply, Sound, Mirrors, Added, Creates, OnTop, UserKeys, CursorOf;
    ghost var db := list.api.service.repo.db;
    ghost var w;
    created, w := list.api.Create(draft, isDynamic, payloadUrl, get, set_, attempts);
    if created.None? {
      return;
    }
    InsertedKeys(db, draft.user, w);
    if list.state.Some? {
      if Mirrors(db, draft.user, list.state.value) {
        MirrorsPosition(db, draft.user, list.state.value);
        AddMirrors(db, draft.user, list.state.value, w);
      }
    } else {
      AddUnloaded(db, draft.user, w);
    }
    list.OptimisticallyAddCode(created.value);
  }

  lemma MirrorsPosition(db: Db, user: Uuid, p: Paginated)
    requires Mirrors(db, user, p)
    ensures Position(p).Ok?
  {
  }
}
