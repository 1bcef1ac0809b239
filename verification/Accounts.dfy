/**
 Guests, accounts and logins: backend/internal/auth/service.go over backend/internal/users/repository.go and
 backend/migrations/0001_create_users.up.sql. Requests run one after another.
 */
module Accounts {
  import opened Basics
  import opened Rfc3339
  import opened Cursor
  import opened Protocol
  import opened Password

  datatype UserRow = UserRow(email: Option<string>, passwordHash: Option<string>, isGuest: bool, createdAt: Instant,
                             updatedAt: Instant)

  type Users = map<Uuid, UserRow>

  /** fold is how CITEXT compares e-mail addresses: two are the same when it maps them to the same string. */
  datatype Config = Config(fold: string -> string, kdf: Kdf)

  predicate HasEmail(c: Config, row: UserRow, email: string) {
    row.email.Some? && c.fold(row.email.value) == c.fold(email)
  }

  /** email CITEXT UNIQUE: any number of rows may have none. */
  ghost predicate EmailsUnique(c: Config, db: Users) {
    forall a, b :: a in db && b in db && db[a].email.Some? && HasEmail(c, db[b], db[a].email.value) ==> a == b
  }

  /** A row other than id's holds this e-mail address. */
  predicate TakenByOther(c: Config, db: Users, id: Uuid, email: Option<string>) {
    email.Some? && exists other <- db :: other != id && HasEmail(c, db[other], email.value)
  }

  datatype RepoError = Missing | EmailTaken | DatabaseError

  class User {
    var id: Uuid
    var row: UserRow

    constructor (id: Uuid, row: UserRow)
      ensures this.id == id && this.row == row
    {
      this.id, this.row := id, row;
    }
  }

  /** The users table. */
  class UserRepository {
    const config: Config
    var rows: Users
    var now: Instant

    constructor (config: Config, start: Instant)
      ensures this.config == config && rows == map[] && now == start
    {
      this.config, rows, now := config, map[], start;
    }

    ghost predicate Valid()
      reads this
    {
      EmailsUnique(config, rows)
    }

    /** Inserts u and copies the generated fields back onto it. */
    method Create(u: User, newId: Uuid, fault: Fault) returns (err: Option<RepoError>)
      requires Valid() && newId !in rows
      modifies this`rows, u
      ensures Valid()
      ensures var clash := TakenByOther(config, old(rows), newId, old(u.row.email));
              && rows == (if fault.Failed? || clash then old(rows)
                          else old(rows)[newId := old(u.row).(createdAt := now, updatedAt := now)])
              && (err.None? <==> fault.Fine? && !clash)
              && (err == Some(EmailTaken) <==> !fault.Failed? && clash)
      ensures err.None? ==> u.id == newId && rows[newId] == u.row
    {
      if fault.Failed? {
        return Some(DatabaseError);
      }
      if TakenByOther(config, rows, newId, u.row.email) {
        return Some(EmailTaken);
      }
      rows := rows[newId := u.row.(createdAt := now, updatedAt := now)];
      if fault.Unreported? {
        return Some(DatabaseError);
      }
      u.id := newId;
      u.row := u.row.(createdAt := now, updatedAt := now);
      err := None;
    }

    method GetByID(id: Uuid, fault: Fault) returns (r: Result<User, RepoError>)
      ensures r.Ok? <==> fault.Fine? && id in rows
      ensures r.Ok? ==> fresh(r.value) && r.value.id == id && r.value.row == rows[id]
      ensures r.Err? ==> r.error == if fault.Fine? then Missing else DatabaseError
    {
      if !fault.Fine? {
        return Err(DatabaseError);
      }
      if id !in rows {
        return Err(Missing);
      }
      var u := new User(id, rows[id]);
      r := Ok(u);
    }

    /** The row with this e-mail address, in any spelling CITEXT takes for the same. */
    method GetByEmail(email: string, fault: Fault) returns (r: Result<User, RepoError>)
      requires Valid()
      ensures r.Ok? <==> fault.Fine? && exists id <- rows :: HasEmail(config, rows[id], email)
      ensures r.Ok? ==> fresh(r.value) && r.value.id in rows && r.value.row == rows[r.value.id]
                        && forall id <- rows :: HasEmail(config, rows[id], email) <==> id == r.value.id
      ensures r.Err? ==> r.error == if fault.Fine? then Missing else DatabaseError
    {
      if !fault.Fine? {
        return Err(DatabaseError);
      }
      if id :| id in rows && HasEmail(config, rows[id], email) {
        var u := new User(id, rows[id]);
        return Ok(u);
      }
      r := Err(Missing);
    }

    /** Persists e-mail, hash and guest flag of an existing user. */
    method Update(u: User, fault: Fault) returns (err: Option<RepoError>)
      requires Valid()
      modifies this`rows, u
      ensures Valid()
      ensures var clash := TakenByOther(config, old(rows), u.id, old(u.row.email)); var there := u.id in old(rows);
              && u.id == old(u.id)
              && rows == (if fault.Failed? || !there || clash then old(rows)
                          else old(rows)[u.id := old(u.row).(createdAt := old(rows)[u.id].createdAt, updatedAt := now)])
              && (err.None? <==> fault.Fine? && there && !clash)
              && (err == Some(Missing) <==> !fault.Failed? && !there)
              && (err == Some(EmailTaken) <==> !fault.Failed? && there && clash)
      ensures err.None? ==> u.row == old(u.row).(updatedAt := now)
    {
      if fault.Failed? {
        return Some(DatabaseError);
      }
      if u.id !in rows {
        return Some(Missing);
      }
      if TakenByOther(config, rows, u.id, u.row.email) {
        return Some(EmailTaken);
      }
      rows := rows[u.id := u.row.(createdAt := rows[u.id].createdAt, updatedAt := now)];
      if fault.Unreported? {
        return Some(DatabaseError);
      }
      u.row := u.row.(updatedAt := now);
      err := None;
    }
  }

  datatype AuthError = AlreadyUpgraded | InvalidCredentials | UserMissing | AddressTaken | InternalError

  /** The row an upgrade writes. */
  function AccountRow(c: Config, row: UserRow, email: string, password: seq<Byte>, salt: seq<Byte>,
                      now: Instant): UserRow
  {
    UserRow(Some(email), Some(Hashed(c.kdf, password, salt)), false, row.createdAt, now)
  }

  /** The guest can be turned into an account with this e-mail address. */
  predicate Upgradable(c: Config, db: Users, id: Uuid, email: string) {
    id in db && db[id].isGuest && !TakenByOther(c, db, id, Some(email))
  }

  /** A request with everything it draws from outside; logins change nothing. */
  datatype Operation =
    | CreateGuest(id: Uuid, now: Instant, fault: Fault)
    | Upgrade(id: Uuid, email: string, password: seq<Byte>, entropy: Option<seq<Byte>>, now: Instant, load: Fault,
              save: Fault)
    | Login(email: string, password: seq<Byte>)

  /** The table after a request; ids Postgres generates are new. */
  function After(c: Config, db: Users, op: Operation): Users {
    match op
    case CreateGuest(id, now, fault) =>
      if fault.Failed? || id in db then db else db[id := UserRow(None, None, true, now, now)]
    case Upgrade(id, email, password, entropy, now, load, save) =>
      if load.Fine? && Upgradable(c, db, id, email) && entropy.Some? && !save.Failed?
      then db[id := AccountRow(c, db[id], email, password, entropy.value, now)] else db
    case Login(_, _) => db
  }

  /** Who a login is for. */
  ghost function LoginOutcome(c: Config, db: Users, email: string, password: seq<Byte>): Result<Uuid, AuthError> {
    if id :| id in db && HasEmail(c, db[id], email) then
      if db[id].passwordHash.None? then Err(InvalidCredentials)
      else match Verify(c.kdf, password, db[id].passwordHash.value)
           case Err(_) => Err(InternalError)
           case Ok(matches) => if matches then Ok(id) else Err(InvalidCredentials)
    else Err(InvalidCredentials)
  }

  /** Tokens are issued for a user or not at all; what they hold is left out. */
  class AuthService {
    const repo: UserRepository

    constructor (repo: UserRepository)
      ensures this.repo == repo
    {
      this.repo := repo;
    }

    method CreateGuest(newId: Uuid, fault: Fault, issues: bool) returns (r: Result<User, AuthError>)
      requires repo.Valid() && newId !in repo.rows
      modifies repo`rows
      ensures repo.Valid()
      ensures repo.rows == After(repo.config, old(repo.rows), Operation.CreateGuest(newId, repo.now, fault))
      ensures r.Ok? <==> fault.Fine? && issues
      ensures repo.rows == if fault.Failed? then old(repo.rows)
                           else old(repo.rows)[newId := UserRow(None, None, true, repo.now, repo.now)]
      ensures r.Ok? ==> fresh(r.value) && r.value.id == newId && repo.rows[newId] == r.value.row
    {
      var u := new User(0, UserRow(None, None, true, 0, 0));
      var err := repo.Create(u, newId, fault);
      if err.Some? || !issues {
        return Err(InternalError);
      }
      r := Ok(u);
    }

    method UpgradeToAccount(id: Uuid, email: string, password: seq<Byte>, entropy: Option<seq<Byte>>, load: Fault,
                            save: Fault, issues: bool)
      returns (r: Result<User, AuthError>)
      requires repo.Valid() && (entropy.Some? ==> |entropy.value| == ARGON_SALT_LEN)
      modifies repo`rows
      ensures repo.Valid()
      ensures var c, db := repo.config, old(repo.rows);
              && repo.rows == After(c, db, Upgrade(id, email, password, entropy, repo.now, load, save))
              && (r.Ok? <==> load.Fine? && Upgradable(c, db, id, email) && entropy.Some? && save.Fine? && issues)
              && (r.Ok? ==>
                    && r.value.id == id && repo.rows[id] == r.value.row && id in db && db[id].isGuest && entropy.Some?
                    && repo.rows == db[id := UserRow(Some(email), Some(Hashed(c.kdf, password, entropy.value)), false,
                                                     db[id].createdAt, repo.now)]
                    && forall other <- db :: other != id ==>
                         db[other].email.None? || c.fold(db[other].email.value) != c.fold(email))
              && (load.Fine? && id in db && !db[id].isGuest ==> r == Err(AlreadyUpgraded))
              && (load.Fine? && id !in db ==> r == Err(UserMissing))
              && ((load.Fine? && id in db && db[id].isGuest && entropy.Some? && !save.Failed?
                   && TakenByOther(c, db, id, Some(email))) ==> r == Err(AddressTaken))
    {
      hide Hashed;
      var found := repo.GetByID(id, load);
      if found.Err? {
        return Err(if found.error.Missing? then UserMissing else InternalError);
      }
      var u := found.value;
      if !u.row.isGuest {
        return Err(AlreadyUpgraded);
      }
      var hash := HashPassword(repo.config.kdf, password, entropy);
      if hash.None? {
        return Err(InternalError);
      }
      u.row := u.row.(email := Some(email), passwordHash := hash, isGuest := false);
      var err := repo.Update(u, save);
      if err.Some? {
        return Err(if err.value.EmailTaken? then AddressTaken
                   else if err.value.Missing? then UserMissing else InternalError);
      }
      if !issues {
        return Err(InternalError);
      }
      r := Ok(u);
    }

    method Login(email: string, password: seq<Byte>, load: Fault, issues: bool) returns (r: Result<User, AuthError>)
      requires repo.Valid()
      ensures load.Fine? && issues ==>
                match LoginOutcome(repo.config, repo.rows, email, password)
                case Ok(id) => r.Ok? && r.value.id == id && id in repo.rows && r.value.row == repo.rows[id]
                case Err(e) => r == Err(e)
      ensures r.Ok? ==> load.Fine? && issues && LoginOutcome(repo.config, repo.rows, email, password) == Ok(r.value.id)
      ensures r.Ok? ==>
                && r.value.id in repo.rows && repo.rows[r.value.id].email.Some?
                && repo.config.fold(repo.rows[r.value.id].email.value) == repo.config.fold(email)
                && repo.rows[r.value.id].passwordHash.Some?
                && Verify(repo.config.kdf, password, repo.rows[r.value.id].passwordHash.value) == Ok(true)
      ensures load.Fine? && (forall id <- repo.rows :: repo.rows[id].email.Some? ==>
                               repo.config.fold(repo.rows[id].email.value) != repo.config.fold(email)) ==>
                r == Err(InvalidCredentials)
      ensures load.Fine? && (exists id <- repo.rows :: HasEmail(repo.config, repo.rows[id], email)
                               && repo.rows[id].passwordHash.Some?
                               && Verify(repo.config.kdf, password, repo.rows[id].passwordHash.value) == Ok(false)) ==>
                r == Err(InvalidCredentials)
    {
      hide Verify;
      var found := repo.GetByEmail(email, load);
      if found.Err? {
        return Err(if found.error.Missing? then InvalidCredentials else InternalError);
      }
      var u := found.value;
      if u.row.passwordHash.None? {
        return Err(InvalidCredentials);
      }
      var matches := Verify(repo.config.kdf, password, u.row.passwordHash.value);
      if matches.Err? {
        return Err(InternalError);
      }
      if !matches.value {
        return Err(InvalidCredentials);
      }
      if !issues {
        return Err(InternalError);
      }
      r := Ok(u);
    }
  }

  function RunAll(c: Config, db: Users, ops: seq<Operation>): Users
    decreases |ops|
  {
    if ops == [] then db else RunAll(c, After(c, db, ops[0]), ops[1..])
  }

  /** Guests have no credentials, accounts have both, and no two share an e-mail address. */
  ghost predicate Sound(c: Config, db: Users) {
    && EmailsUnique(c, db)
    && forall id <- db :: (db[id].isGuest <==> db[id].email.None?) && (db[id].isGuest <==> db[id].passwordHash.None?)
  }

  lemma AfterSound(c: Config, db: Users, op: Operation)
    requires Sound(c, db)
    ensures Sound(c, After(c, db, op))
  {
    hide Hashed;
  }

  /** From an empty table, e-mail addresses stay unique and only guests lack credentials. */
  lemma {:induction false} RunSound(c: Config, db: Users, ops: seq<Operation>)
    requires Sound(c, db)
    ensures Sound(c, RunAll(c, db, ops))
    decreases |ops|
  {
    hide Sound, After;
    if ops != [] {
      AfterSound(c, db, ops[0]);
      RunSound(c, After(c, db, ops[0]), ops[1..]);
    }
  }

  /** An account is never changed again, let alone turned back into a guest. */
  lemma {:induction false} AccountsStay(c: Config, db: Users, ops: seq<Operation>, id: Uuid)
    requires id in db && !db[id].isGuest
    ensures id in RunAll(c, db, ops) && RunAll(c, db, ops)[id] == db[id]
    decreases |ops|
  {
    hide Hashed;
    if ops != [] {
      AccountsStay(c, After(c, db, ops[0]), ops[1..], id);
    }
  }

  lemma LoginFinds(c: Config, db: Users, id: Uuid, email: string, password: seq<Byte>, salt: seq<Byte>,
                   attempt: seq<Byte>)
    requires EmailsUnique(c, db) && id in db && HasEmail(c, db[id], email)
    requires db[id].passwordHash == Some(Hashed(c.kdf, password, salt))
    requires |Derived(c.kdf, password, salt)| == ARGON_KEY_LEN
    ensures LoginOutcome(c, db, email, attempt)
            == if Derived(c.kdf, attempt, salt) == Derived(c.kdf, password, salt) then Ok(id)
               else Err(InvalidCredentials)
  {
    hide Hashed, Verify;
    VerifyExact(c.kdf, password, salt, attempt);
  }

  /**
   Login permanence: once an upgrade has succeeded, whatever requests follow, logging in with that e-mail address in any
   spelling yields that user for exactly the passwords that derive the same key, the right one among them.
   */
  lemma {:induction false} LoginPermanence(c: Config, db: Users, up: Operation, ops: seq<Operation>, email: string,
                                           attempt: seq<Byte>)
    requires Sound(c, db) && up.Upgrade? && up.load.Fine? && up.save.Fine? && up.entropy.Some?
    requires Upgradable(c, db, up.id, up.email) && c.fold(email) == c.fold(up.email)
    requires |Derived(c.kdf, up.password, up.entropy.value)| == ARGON_KEY_LEN
    ensures var salt := up.entropy.value;
            LoginOutcome(c, RunAll(c, After(c, db, up), ops), email, attempt)
            == if Derived(c.kdf, attempt, salt) == Derived(c.kdf, up.password, salt) then Ok(up.id)
               else Err(InvalidCredentials)
    ensures LoginOutcome(c, RunAll(c, After(c, db, up), ops), email, up.password) == Ok(up.id)
  {
    hide Hashed, LoginOutcome, RunAll, Derived;
    var upgraded := After(c, db, up);
    AfterSound(c, db, up);
    RunSound(c, upgraded, ops);
    AccountsStay(c, upgraded, ops, up.id);
    LoginFinds(c, RunAll(c, upgraded, ops), up.id, email, up.password, up.entropy.value, attempt);
    LoginFinds(c, RunAll(c, upgraded, ops), up.id, email, up.password, up.entropy.value, up.password);
  }
}
