/**
  What each operation on accounts does to the database: the users table, group memberships and
  password-reset tokens.
 */
module Credentials {
  import opened Common
  import opened Users

  const DEFAULT_GROUP := "users"
  const RESET_TTL := 3600
  const NIL_UUID := "00000000-0000-0000-0000-000000000000"

  datatype Reset = Reset(userId: int, expiresAt: int, used: bool)

  datatype Db = Db(users: Table, groups: set<string>, members: set<(int, string)>, resets: map<string, Reset>)

  /** uuid and token are the random ids an operation draws, now the clock it reads. */
  datatype Op =
    | Register(email: string, name: string, password: string, uuid: string)
    | UpdateMe(uuid: string, newEmail: Option<string>, newName: Option<string>)
    | UpdateUser(uuid: string, newEmail: Option<string>, newName: Option<string>)
    | ChangePassword(uuid: string, oldPassword: string, newPassword: string)
    | RequestPasswordReset(email: string, token: string, now: int)
    | ConfirmPasswordReset(token: string, newPassword: string, now: int)
    | DeleteUser(uuid: string, now: int)
    | CleanupResets(now: int)

  /** What libraries decide: which emails are valid, and what bcrypt makes of a candidate too long to be hashed. */
  datatype Library = Library(validEmail: string -> bool, cut: string -> string)

  /** The password a candidate is compared as: itself, unless it is longer than bcrypt reads. */
  function Seen(lib: Library, candidate: string): string {
    if Hashable(candidate) then candidate else lib.cut(candidate)
  }

  predicate ValidEmail(lib: Library, email: string) {
    email != "" && lib.validEmail(email)
  }

  predicate ValidName(name: string) {
    1 <= |name| <= 100
  }

  predicate ValidPassword(password: string) {
    |password| >= 6
  }

  predicate ValidUpdate(lib: Library, uuid: string, email: Option<string>, name: Option<string>) {
    && uuid != NIL_UUID
    && (email.Some? ==> ValidEmail(lib, email.value))
    && (name.Some? ==> ValidName(name.value))
  }

  /** The validation tags of the operations' inputs. */
  predicate Valid(lib: Library, op: Op) {
    match op
    case Register(email, name, password, _) => ValidEmail(lib, email) && ValidName(name) && ValidPassword(password)
    case UpdateMe(uuid, email, name) => ValidUpdate(lib, uuid, email, name)
    case UpdateUser(uuid, email, name) => ValidUpdate(lib, uuid, email, name)
    case ChangePassword(uuid, current, next) => uuid != NIL_UUID && current != "" && ValidPassword(next)
    case RequestPasswordReset(email, _, _) => ValidEmail(lib, email)
    case ConfirmPasswordReset(token, password, _) => token != "" && ValidPassword(password)
    case DeleteUser(_, _) => true
    case CleanupResets(_) => true
  }

  function NormalizeOption(email: Option<string>): Option<string> {
    if email.Some? then Some(Normalize(email.value)) else None
  }

  /** The transaction: the row and its membership, or neither. */
  function CreateMember(db: Db, uuid: string, email: string, name: string, hash: Hash): (Db, Reply) {
    var (users, r) := Insert(db.users, uuid, email, name, hash);
    if r == Refused(UniqueViolation) then (db.(users := users), Refused(UserAlreadyExists))
    else if r.Refused? then (db.(users := users), r)
    else if DEFAULT_GROUP !in db.groups then
      (db.(users := db.users.(nextId := users.nextId)), Refused(GroupNotFound))
    else (db.(users := users, members := db.members + {(db.users.nextId, DEFAULT_GROUP)}), Done)
  }

  function AfterRegister(db: Db, uuid: string, email: string, name: string, password: string): (Db, Reply) {
    if !Hashable(password) then (db, Refused(PasswordTooLong))
    else CreateMember(db, uuid, Normalize(email), name, Hash(password))
  }

  function AfterUpdate(db: Db, uuid: string, email: Option<string>, name: Option<string>): (Db, Reply) {
    var (users, r) := Change(db.users, uuid, email, name);
    (db.(users := users), r)
  }

  function AfterChangePassword(db: Db, uuid: string, current: string, next: string): (Db, Reply) {
    match ByUuid(db.users, uuid)
    case None => (db, Refused(UserNotFound))
    case Some(id) =>
      if !Compare(current, db.users.rows[id].hash) then (db, Refused(InvalidCredentials))
      else if !Hashable(next) then (db, Refused(PasswordTooLong))
      else (db.(users := SetPassword(db.users, id, Hash(next)).0), Done)
  }

  /** An unknown email is answered like a known one, with no token stored. */
  function AfterRequest(db: Db, email: string, token: string, now: int): (Db, Reply) {
    match ByEmail(db.users, email)
    case None => (db, Done)
    case Some(id) =>
      if token in db.resets then (db, Refused(DatabaseError))
      else (db.(resets := db.resets[token := Reset(id, now + RESET_TTL, false)]), Done)
  }

  function AfterConfirm(db: Db, token: string, password: string, now: int): (Db, Reply) {
    if token !in db.resets then (db, Refused(TokenNotFound))
    else
      var reset := db.resets[token];
      if reset.used then (db, Refused(TokenAlreadyUsed))
      else if now > reset.expiresAt then (db, Refused(TokenExpired))
      else if !Hashable(password) then (db, Refused(PasswordTooLong))
      else
        var (users, r) := SetPassword(db.users, reset.userId, Hash(password));
        if r.Refused? then (db, r)
        else (db.(users := users, resets := db.resets[token := reset.(used := true)]), Done)
  }

  function AfterDelete(db: Db, uuid: string, now: int): (Db, Reply) {
    var (users, r) := SoftDelete(db.users, uuid, now);
    (db.(users := users), r)
  }

  function AfterCleanup(resets: map<string, Reset>, now: int): map<string, Reset> {
    map t | t in resets && !(resets[t].expiresAt < now || resets[t].used) :: resets[t]
  }

  function Effect(lib: Library, db: Db, op: Op): (Db, Reply) {
    match op
    case Register(email, name, password, uuid) => AfterRegister(db, uuid, email, name, password)
    case UpdateMe(uuid, email, name) => AfterUpdate(db, uuid, NormalizeOption(email), name)
    case UpdateUser(uuid, email, name) => AfterUpdate(db, uuid, email, name)
    case ChangePassword(uuid, current, next) => AfterChangePassword(db, uuid, Seen(lib, current), next)
    case RequestPasswordReset(email, token, now) => AfterRequest(db, Normalize(email), token, now)
    case ConfirmPasswordReset(token, password, now) => AfterConfirm(db, token, password, now)
    case DeleteUser(uuid, now) => AfterDelete(db, uuid, now)
    case CleanupResets(now) => (db.(resets := AfterCleanup(db.resets, now)), Done)
  }

  function Apply(lib: Library, db: Db, op: Op): (Db, Reply) {
    if Valid(lib, op) then Effect(lib, db, op) else (db, Refused(ValidationFailed))
  }

  /** The id of the account that logs in. */
  datatype Session = LoggedIn(id: int) | Denied(error: Error)

  function Login(lib: Library, db: Db, email: string, password: string): Session {
    if !ValidEmail(lib, email) || password == "" then Denied(ValidationFailed)
    else
      match ByEmail(db.users, Normalize(email))
      case None => Denied(InvalidCredentials)
      case Some(id) =>
        if Compare(Seen(lib, password), db.users.rows[id].hash) then LoggedIn(id) else Denied(InvalidCredentials)
  }

  function Init(groups: set<string>): Db {
    Db(EMPTY, groups, {}, map[])
  }

  function Run(lib: Library, db: Db, ops: seq<Op>): Db {
    if ops == [] then db else Apply(lib, Run(lib, db, ops[..|ops| - 1]), ops[|ops| - 1]).0
  }

  /** Indexed users, each with the default membership and nobody else with any; tokens name rows. */
  ghost predicate Consistent(db: Db) {
    && Indexed(db.users)
    && (forall id :: id in db.users.rows <==> (id, DEFAULT_GROUP) in db.members)
    && (forall m | m in db.members :: m.1 == DEFAULT_GROUP)
    && (forall t | t in db.resets :: db.resets[t].userId in db.users.rows)
  }

  lemma UsersKeep(db: Db, users: Table)
    requires Consistent(db) && Indexed(users) && users.rows.Keys == db.users.rows.Keys
    ensures Consistent(db.(users := users))
  {
  }

  lemma RegisterKeeps(db: Db, uuid: string, email: string, name: string, hash: Hash)
    requires Consistent(db)
    ensures var d := CreateMember(db, uuid, email, name, hash).0; Consistent(d) && Keeps(db.users, d.users)
  {
    InsertKeeps(db.users, uuid, email, name, hash);
    var (users, r) := Insert(db.users, uuid, email, name, hash);
    UsersKeep(db, db.users.(nextId := users.nextId));
    if r.Done? {
      assert users.rows.Keys == db.users.rows.Keys + {db.users.nextId};
    } else {
      assert users.rows == db.users.rows;
    }
  }

  lemma MarkKeeps(db: Db, token: string)
    requires Consistent(db) && token in db.resets
    ensures Consistent(db.(resets := db.resets[token := db.resets[token].(used := true)]))
  {
  }

  lemma ConfirmKeeps(db: Db, token: string, password: string, now: int)
    requires Consistent(db)
    ensures var d := AfterConfirm(db, token, password, now).0; Consistent(d) && Keeps(db.users, d.users)
  {
    if token in db.resets {
      var reset := db.resets[token];
      var users := SetPassword(db.users, reset.userId, Hash(password)).0;
      SetPasswordKeeps(db.users, reset.userId, Hash(password));
      UsersKeep(db, users);
      MarkKeeps(db.(users := users), token);
    }
  }

  lemma UpdateKeeps(db: Db, uuid: string, email: Option<string>, name: Option<string>)
    requires Consistent(db)
    ensures var d := AfterUpdate(db, uuid, email, name).0; Consistent(d) && Keeps(db.users, d.users)
  {
    ChangeKeeps(db.users, uuid, email, name);
    UsersKeep(db, Change(db.users, uuid, email, name).0);
  }

  lemma PasswordKeeps(db: Db, uuid: string, current: string, next: string)
    requires Consistent(db)
    ensures var d := AfterChangePassword(db, uuid, current, next).0; Consistent(d) && Keeps(db.users, d.users)
  {
    var id := ByUuid(db.users, uuid);
    if id.Some? {
      SetPasswordKeeps(db.users, id.value, Hash(next));
      UsersKeep(db, SetPassword(db.users, id.value, Hash(next)).0);
    }
  }

  lemma ApplyKeeps(lib: Library, db: Db, op: Op)
    requires Consistent(db)
    ensures Consistent(Apply(lib, db, op).0)
    ensures Keeps(db.users, Apply(lib, db, op).0.users)
  {
    if op.Register? {
      RegisterKeeps(db, op.uuid, Normalize(op.email), op.name, Hash(op.password));
    } else if op.UpdateMe? {
      UpdateKeeps(db, op.uuid, NormalizeOption(op.newEmail), op.newName);
    } else if op.UpdateUser? {
      UpdateKeeps(db, op.uuid, op.newEmail, op.newName);
    } else if op.ChangePassword? {
      PasswordKeeps(db, op.uuid, Seen(lib, op.oldPassword), op.newPassword);
    } else if op.ConfirmPasswordReset? {
      ConfirmKeeps(db, op.token, op.newPassword, op.now);
    } else if op.DeleteUser? {
      SoftDeleteKeeps(db.users, op.uuid, op.now);
      UsersKeep(db, SoftDelete(db.users, op.uuid, op.now).0);
    }
  }

  /**
    In every run: emails and uuids are unique over active and deleted rows, emails lower-case, and a user is there
    exactly when its membership of the default group is.
   */
  lemma {:induction false} RunKeeps(lib: Library, groups: set<string>, ops: seq<Op>)
    ensures Consistent(Run(lib, Init(groups), ops))
  {
    if ops != [] {
      RunKeeps(lib, groups, ops[..|ops| - 1]);
      ApplyKeeps(lib, Run(lib, Init(groups), ops[..|ops| - 1]), ops[|ops| - 1]);
    }
  }

  lemma {:induction false} GroupsStay(lib: Library, groups: set<string>, ops: seq<Op>)
    ensures Run(lib, Init(groups), ops).groups == groups
  {
    if ops != [] {
      GroupsStay(lib, groups, ops[..|ops| - 1]);
    }
  }

  /** A deleted row is never changed again, however long the run goes on. */
  lemma {:induction false} DeletedStays(lib: Library, db: Db, ops: seq<Op>, id: int)
    requires Consistent(db) && id in db.users.rows && db.users.rows[id].deletedAt.Some?
    ensures Consistent(Run(lib, db, ops))
    ensures id in Run(lib, db, ops).users.rows && Run(lib, db, ops).users.rows[id] == db.users.rows[id]
  {
    if ops != [] {
      DeletedStays(lib, db, ops[..|ops| - 1], id);
      ApplyKeeps(lib, Run(lib, db, ops[..|ops| - 1]), ops[|ops| - 1]);
    }
  }
}
