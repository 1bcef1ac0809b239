/**
 The codes and dynamic_codes tables and the statements run on them: backend/internal/codes/repository.go over
 backend/migrations/0002_create_codes.up.sql.
 */
module Tables {
  import opened Basics
  import opened Rfc3339
  import opened Cursor

  /** The label column is called caption here: label is a reserved word. */
  datatype CodeRow = CodeRow(user: Uuid, kind: string, payload: string, isDynamic: bool,
                             caption: Option<string>, createdAt: Instant, updatedAt: Instant)

  datatype DynamicRow = DynamicRow(slug: string, destination: string, updatedAt: Instant)

  /** A joined row, as GetByID and List return it. */
  datatype Code = Code(id: Uuid, row: CodeRow, dynamic: Option<DynamicRow>)

  /** What a redirect needs of a slug's row. */
  datatype Target = Target(destination: string, codeId: Uuid)

  /** The caller's part of a new code. */
  datatype Draft = Draft(user: Uuid, kind: string, payload: string, caption: Option<string>)

  /**
   bySlug is the index behind dynamic_codes.slug UNIQUE. issued holds every id gen_random_uuid has produced for a
   stored code: 122 random bits are taken never to repeat.
   */
  datatype Db = Db(codes: map<Uuid, CodeRow>, dynamics: map<Uuid, DynamicRow>, bySlug: map<string, Uuid>,
                   issued: set<Uuid>)

  const EMPTY := Db(map[], map[], map[], {})

  /** The data-changing statements, with the id and time Postgres supplies. */
  datatype Write =
    | InsertStatic(id: Uuid, draft: Draft, now: Instant)
    | InsertDynamic(id: Uuid, draft: Draft, slug: string, destination: string, now: Instant)
    | UpdateDestination(id: Uuid, destination: string, now: Instant)
    | UpdateLabel(user: Uuid, id: Uuid, caption: Option<string>, now: Instant)
    | DeleteCode(user: Uuid, id: Uuid)

  predicate KnownKind(kind: string) {
    kind in ["url", "wifi", "vcard", "email", "text", "sms"]
  }

  predicate Owned(db: Db, user: Uuid, id: Uuid) {
    id in db.codes && db.codes[id].user == user
  }

  /** Whether the statement changes a row, as opposed to failing a constraint or matching nothing. */
  predicate Accepts(db: Db, w: Write) {
    match w
    case InsertStatic(id, draft, _) => id !in db.issued && KnownKind(draft.kind)
    case InsertDynamic(id, draft, slug, _, _) => id !in db.issued && KnownKind(draft.kind) && slug !in db.bySlug
    case UpdateDestination(id, _, _) => id in db.dynamics
    case UpdateLabel(user, id, _, _) => Owned(db, user, id)
    case DeleteCode(user, id) => Owned(db, user, id)
  }

  function NewRow(draft: Draft, isDynamic: bool, now: Instant): CodeRow {
    CodeRow(draft.user, draft.kind, draft.payload, isDynamic, draft.caption, now, now)
  }

  /** The tables after a statement; a refused one leaves them as they were. */
  function Apply(db: Db, w: Write): Db {
    if !Accepts(db, w) then db
    else
      match w
      case InsertStatic(id, draft, now) =>
        db.(codes := db.codes[id := NewRow(draft, false, now)], issued := db.issued + {id})
      case InsertDynamic(id, draft, slug, destination, now) =>
        Db(db.codes[id := NewRow(draft, true, now)], db.dynamics[id := DynamicRow(slug, destination, now)],
           db.bySlug[slug := id], db.issued + {id})
      case UpdateDestination(id, destination, now) =>
        db.(dynamics := db.dynamics[id := db.dynamics[id].(destination := destination, updatedAt := now)])
      case UpdateLabel(_, id, caption, now) =>
        db.(codes := db.codes[id := db.codes[id].(caption := caption, updatedAt := now)])
      case DeleteCode(_, id) =>
        var slugs := if id in db.dynamics then {db.dynamics[id].slug} else {};
        db.(codes := db.codes - {id}, dynamics := db.dynamics - {id}, bySlug := db.bySlug - slugs)
  }

  /** What each statement leaves in each table, row by row. */
  lemma ApplyIs(db: Db, w: Write)
    ensures !Accepts(db, w) ==> Apply(db, w) == db
    ensures w.InsertStatic? && Accepts(db, w) ==>
              var d := w.draft;
              Apply(db, w) == Db(db.codes[w.id := CodeRow(d.user, d.kind, d.payload, false, d.caption, w.now, w.now)],
                                 db.dynamics, db.bySlug, db.issued + {w.id})
    ensures w.InsertDynamic? && Accepts(db, w) ==>
              var d := w.draft;
              Apply(db, w) == Db(db.codes[w.id := CodeRow(d.user, d.kind, d.payload, true, d.caption, w.now, w.now)],
                                 db.dynamics[w.id := DynamicRow(w.slug, w.destination, w.now)],
                                 db.bySlug[w.slug := w.id], db.issued + {w.id})
    ensures w.UpdateDestination? && w.id in db.dynamics ==>
              Apply(db, w) == Db(db.codes,
                                 db.dynamics[w.id := DynamicRow(db.dynamics[w.id].slug, w.destination, w.now)],
                                 db.bySlug, db.issued)
    ensures w.UpdateLabel? && w.id in db.codes && db.codes[w.id].user == w.user ==>
              var r := db.codes[w.id];
              Apply(db, w) == Db(db.codes[w.id := CodeRow(r.user, r.kind, r.payload, r.isDynamic, w.caption,
                                                          r.createdAt, w.now)],
                                 db.dynamics, db.bySlug, db.issued)
    ensures w.DeleteCode? && w.id in db.codes && db.codes[w.id].user == w.user ==>
              Apply(db, w) == Db(db.codes - {w.id}, db.dynamics - {w.id},
                                 if w.id in db.dynamics then db.bySlug - {db.dynamics[w.id].slug} else db.bySlug,
                                 db.issued)
  {
  }

  /** SELECT destination, code_id FROM dynamic_codes WHERE slug = $1. */
  function ResolveSlug(db: Db, slug: string): Option<Target> {
    if slug in db.bySlug && db.bySlug[slug] in db.dynamics
    then Some(Target(db.dynamics[db.bySlug[slug]].destination, db.bySlug[slug]))
    else None
  }

  function Joined(db: Db, id: Uuid): Code
    requires id in db.codes
  {
    Code(id, db.codes[id], if id in db.dynamics then Some(db.dynamics[id]) else None)
  }

  /** Owner-scoped lookup: another user's code is not found. */
  function GetByID(db: Db, user: Uuid, id: Uuid): Option<Code> {
    if Owned(db, user, id) then Some(Joined(db, id)) else None
  }

  /** The schema's guarantees, and two the service adds: dynamic rows match the flag, and only url codes have one. */
  predicate Sound(db: Db) {
    && db.codes.Keys <= db.issued
    && (forall id <- db.codes :: KnownKind(db.codes[id].kind))
    && (forall id <- db.codes :: id in db.dynamics <==> db.codes[id].isDynamic)
    && (forall id <- db.dynamics :: id in db.codes && db.codes[id].kind == "url")
    && (forall id <- db.dynamics :: db.dynamics[id].slug in db.bySlug && db.bySlug[db.dynamics[id].slug] == id)
    && (forall slug <- db.bySlug :: db.bySlug[slug] in db.dynamics && db.dynamics[db.bySlug[slug]].slug == slug)
  }

  /** The service never asks for a dynamic code of another kind. */
  predicate UrlWhenDynamic(w: Write) { w.InsertDynamic? ==> w.draft.kind == "url" }

  lemma InsertSound(db: Db, w: Write)
    requires Sound(db) && UrlWhenDynamic(w) && (w.InsertStatic? || w.InsertDynamic?)
    ensures Sound(Apply(db, w))
  {
  }

  lemma UpdateSound(db: Db, w: Write)
    requires Sound(db) && (w.UpdateDestination? || w.UpdateLabel?)
    ensures Sound(Apply(db, w))
  {
  }

  lemma DeleteSound(db: Db, w: Write)
    requires Sound(db) && w.DeleteCode?
    ensures Sound(Apply(db, w))
  {
  }

  /** Every statement the service issues keeps the tables sound. */
  lemma ApplySound(db: Db, w: Write)
    requires Sound(db) && UrlWhenDynamic(w)
    ensures Sound(Apply(db, w))
  {
    hide Sound, Apply;
    match w
    case InsertStatic(_, _, _) => InsertSound(db, w);
    case InsertDynamic(_, _, _, _, _) => InsertSound(db, w);
    case DeleteCode(_, _) => DeleteSound(db, w);
    case _ => UpdateSound(db, w);
  }

  /** Which statements go through: the schema's checks and the owner's scope, spelled out. */
  lemma AcceptsIs(db: Db, w: Write)
    requires Sound(db)
    ensures w.InsertStatic? || w.InsertDynamic? ==>
              (Accepts(db, w) <==>
                 && w.id !in db.issued && w.draft.kind in ["url", "wifi", "vcard", "email", "text", "sms"]
                 && (w.InsertDynamic? ==> forall id <- db.dynamics :: db.dynamics[id].slug != w.slug))
    ensures w.UpdateDestination? ==> (Accepts(db, w) <==> w.id in db.dynamics)
    ensures w.UpdateLabel? || w.DeleteCode? ==>
              (Accepts(db, w) <==> w.id in db.codes && db.codes[w.id].user == w.user)
  {
    if w.InsertDynamic? && w.slug in db.bySlug {
      assert db.dynamics[db.bySlug[w.slug]].slug == w.slug;
    }
  }

  /** A slug resolves to the one dynamic row that has it, and to nothing when none has. */
  lemma ResolveSlugIs(db: Db, slug: string, id: Uuid)
    requires Sound(db)
    ensures id in db.dynamics && db.dynamics[id].slug == slug ==>
              ResolveSlug(db, slug) == Some(Target(db.dynamics[id].destination, id))
    ensures (forall i <- db.dynamics :: db.dynamics[i].slug != slug) ==> ResolveSlug(db, slug) == None
  {
  }

  /** The owner gets his code with its dynamic row; nobody else gets anything. */
  lemma GetByIDIs(db: Db, user: Uuid, id: Uuid)
    ensures id in db.codes && db.codes[id].user == user && id in db.dynamics ==>
              GetByID(db, user, id) == Some(Code(id, db.codes[id], Some(db.dynamics[id])))
    ensures id in db.codes && db.codes[id].user == user && id !in db.dynamics ==>
              GetByID(db, user, id) == Some(Code(id, db.codes[id], None))
    ensures id !in db.codes || db.codes[id].user != user ==> GetByID(db, user, id) == None
  {
  }

  /** In sound tables no two dynamic codes share a slug. */
  lemma SlugsUnique(db: Db, a: Uuid, b: Uuid)
    requires Sound(db) && a in db.dynamics && b in db.dynamics && db.dynamics[a].slug == db.dynamics[b].slug
    ensures a == b
  {
  }

  /** The slug whose target a statement changes, if any. */
  function Affects(db: Db, w: Write): Option<string> {
    if !Accepts(db, w) then None
    else
      match w
      case InsertDynamic(_, _, slug, _, _) => Some(slug)
      case UpdateDestination(id, _, _) => Some(db.dynamics[id].slug)
      case DeleteCode(_, id) => if id in db.dynamics then Some(db.dynamics[id].slug) else None
      case _ => None
  }

  /** What each statement does to what every slug resolves to. */
  lemma ResolveAfter(db: Db, w: Write, slug: string)
    requires Sound(db)
    ensures Affects(db, w) != Some(slug) ==> ResolveSlug(Apply(db, w), slug) == ResolveSlug(db, slug)
    ensures Affects(db, w) == Some(slug) && w.InsertDynamic? ==>
              ResolveSlug(db, slug).None? && ResolveSlug(Apply(db, w), slug) == Some(Target(w.destination, w.id))
    ensures Affects(db, w) == Some(slug) && w.UpdateDestination? ==>
              ResolveSlug(db, slug).Some? && ResolveSlug(Apply(db, w), slug) == Some(Target(w.destination, w.id))
    ensures Affects(db, w) == Some(slug) && w.DeleteCode? ==>
              ResolveSlug(db, slug).Some? && ResolveSlug(Apply(db, w), slug).None?
  {
  }

  /** The rows of one user, joined. */
  predicate SameFor(before: Db, after: Db, id: Uuid) {
    && (id in before.codes <==> id in after.codes)
    && (id in before.codes ==> Joined(before, id) == Joined(after, id))
  }

  /** A statement touches at most one code. */
  lemma OneCodeTouched(db: Db, w: Write, id: Uuid)
    requires Sound(db) && id != w.id
    ensures SameFor(db, Apply(db, w), id)
  {
  }
}
