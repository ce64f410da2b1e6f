/**
  The users table: unique emails and ids over active and deleted rows, lower-case emails, soft delete.
  A password hash is ideal: it can be compared with a password and says nothing else.
 */
module Users {
  import opened Common

  datatype Error =
    | ValidationFailed
    | PasswordTooLong
    | UniqueViolation
    | UserAlreadyExists
    | UserNotFound
    | GroupNotFound
    | InvalidCredentials
    | TokenNotFound
    | TokenAlreadyUsed
    | TokenExpired
    | DatabaseError

  datatype Reply = Done | Refused(error: Error)

  // ---- Text ----

  function LowerChar(c: char): char {
    if 'A' <= c <= 'Z' then c - 'A' + 'a' else c
  }

  function Lower(s: string): string {
    seq(|s|, i requires 0 <= i < |s| => LowerChar(s[i]))
  }

  predicate IsSpace(c: char) {
    c == ' ' || '\t' <= c <= '\r'
  }

  function TrimLeft(s: string): string {
    if s != [] && IsSpace(s[0]) then TrimLeft(s[1..]) else s
  }

  function TrimRight(s: string): string {
    if s != [] && IsSpace(s[|s| - 1]) then TrimRight(s[..|s| - 1]) else s
  }

  function Normalize(email: string): string {
    Lower(TrimRight(TrimLeft(email)))
  }

  lemma NormalizeIsLower(email: string)
    ensures Lower(Normalize(email)) == Normalize(email)
  {
  }

  /** Bytes of a string in UTF-8. */
  function ByteLength(s: string): nat {
    if s == [] then 0
    else
      var c := s[0] as int;
      (if c < 0x80 then 1 else if c < 0x800 then 2 else if c < 0x1_0000 then 3 else 4) + ByteLength(s[1..])
  }

  // ---- Passwords ----

  const MAX_PASSWORD_BYTES := 72

  datatype Hash = Hash(of: string)

  predicate Hashable(password: string) {
    ByteLength(password) <= MAX_PASSWORD_BYTES
  }

  predicate Compare(password: string, hash: Hash) {
    hash == Hash(password)
  }

  // ---- The table ----

  const MAX_VARCHAR := 255

  datatype User = User(uuid: string, email: string, name: string, hash: Hash, deletedAt: Option<int>)

  /** emails and uuids are the unique indexes, which cover deleted rows too. */
  datatype Table = Table(rows: map<int, User>, emails: map<string, int>, uuids: map<string, int>, nextId: int)

  const EMPTY := Table(map[], map[], map[], 1)

  predicate Storable(email: string, name: string) {
    |email| <= MAX_VARCHAR && |name| <= MAX_VARCHAR && Lower(email) == email
  }

  predicate Active(t: Table, id: int) {
    id in t.rows && t.rows[id].deletedAt.None?
  }

  /** The active row with this uuid. */
  function ByUuid(t: Table, uuid: string): (id: Option<int>)
    ensures id.Some? ==> Active(t, id.value)
  {
    if uuid in t.uuids && Active(t, t.uuids[uuid]) then Some(t.uuids[uuid]) else None
  }

  /** The active row with this email. */
  function ByEmail(t: Table, email: string): (id: Option<int>)
    ensures id.Some? ==> Active(t, id.value)
  {
    if email in t.emails && Active(t, t.emails[email]) then Some(t.emails[email]) else None
  }

  /** An insert takes an id from the sequence even when it is refused. */
  function Insert(t: Table, uuid: string, email: string, name: string, hash: Hash): (Table, Reply) {
    var id := t.nextId;
    var taken := t.(nextId := id + 1);
    if !Storable(email, name) then (taken, Refused(DatabaseError))
    else if email in t.emails || uuid in t.uuids then (taken, Refused(UniqueViolation))
    else
      (taken.(rows := t.rows[id := User(uuid, email, name, hash, None)],
              emails := t.emails[email := id], uuids := t.uuids[uuid := id]), Done)
  }

  function Change(t: Table, uuid: string, email: Option<string>, name: Option<string>): (Table, Reply) {
    match ByUuid(t, uuid)
    case None => (t, Refused(UserNotFound))
    case Some(id) =>
      var u := t.rows[id];
      var e, n := if email.Some? then email.value else u.email, if name.Some? then name.value else u.name;
      if !Storable(e, n) || (e in t.emails && t.emails[e] != id) then (t, Refused(DatabaseError))
      else (t.(rows := t.rows[id := u.(email := e, name := n)], emails := (t.emails - {u.email})[e := id]), Done)
  }

  function SetPassword(t: Table, id: int, hash: Hash): (Table, Reply) {
    if Active(t, id) then (t.(rows := t.rows[id := t.rows[id].(hash := hash)]), Done)
    else (t, Refused(UserNotFound))
  }

  function SoftDelete(t: Table, uuid: string, now: int): (Table, Reply) {
    var id := ByUuid(t, uuid);
    if id.Some? then
      (t.(rows := t.rows[id.value := t.rows[id.value].(deletedAt := Some(now))]), Done)
    else (t, Refused(UserNotFound))
  }

  // ---- What the constraints keep ----

  /** Every row is under its own email and uuid in the indexes, and only rows are. */
  ghost predicate Indexed(t: Table) {
    && (forall id | id in t.rows ::
          var u := t.rows[id];
          && id < t.nextId && Storable(u.email, u.name)
          && u.email in t.emails && t.emails[u.email] == id
          && u.uuid in t.uuids && t.uuids[u.uuid] == id)
    && (forall e | e in t.emails :: t.emails[e] in t.rows && t.rows[t.emails[e]].email == e)
    && (forall u | u in t.uuids :: t.uuids[u] in t.rows && t.rows[t.uuids[u]].uuid == u)
  }

  /** Emails are unique and lower-case over active and deleted rows alike. */
  lemma EmailsUnique(t: Table, a: int, b: int)
    requires Indexed(t) && a in t.rows && b in t.rows
    ensures Lower(t.rows[a].email) == t.rows[a].email
    ensures t.rows[a].email == t.rows[b].email ==> a == b
    ensures t.rows[a].uuid == t.rows[b].uuid ==> a == b
  {
  }

  /** Rows stay, and rows already deleted stay exactly as they are. */
  ghost predicate Keeps(t: Table, u: Table) {
    && t.nextId <= u.nextId
    && (forall id | id in t.rows ::
          id in u.rows && u.rows[id].uuid == t.rows[id].uuid && (t.rows[id].deletedAt.Some? ==> u.rows[id] == t.rows[id]))
  }

  lemma InsertKeeps(t: Table, uuid: string, email: string, name: string, hash: Hash)
    requires Indexed(t)
    ensures var u := Insert(t, uuid, email, name, hash).0; Indexed(u) && Keeps(t, u)
  {
    var (u, r) := Insert(t, uuid, email, name, hash);
    if r.Done? {
      var id := t.nextId;
      assert u.rows == t.rows[id := User(uuid, email, name, hash, None)];
      assert u.emails == t.emails[email := id] && u.uuids == t.uuids[uuid := id];
    }
  }

  lemma ChangeKeeps(t: Table, uuid: string, email: Option<string>, name: Option<string>)
    requires Indexed(t)
    ensures var u := Change(t, uuid, email, name).0; Indexed(u) && Keeps(t, u) && u.rows.Keys == t.rows.Keys
  {
    var (u, r) := Change(t, uuid, email, name);
    if r.Done? {
      var id := ByUuid(t, uuid).value;
      assert u.rows == t.rows[id := u.rows[id]] && u.emails == (t.emails - {t.rows[id].email})[u.rows[id].email := id];
    }
  }

  lemma SetPasswordKeeps(t: Table, id: int, hash: Hash)
    requires Indexed(t)
    ensures var u := SetPassword(t, id, hash).0; Indexed(u) && Keeps(t, u) && u.rows.Keys == t.rows.Keys
  {
  }

  lemma SoftDeleteKeeps(t: Table, uuid: string, now: int)
    requires Indexed(t)
    ensures var u := SoftDelete(t, uuid, now).0; Indexed(u) && Keeps(t, u) && u.rows.Keys == t.rows.Keys
    ensures var u := SoftDelete(t, uuid, now).0;
            forall id | id in t.rows ::
              u.rows[id] == if t.rows[id].uuid == uuid && t.rows[id].deletedAt == None then t.rows[id].(deletedAt := Some(now))
                            else t.rows[id]
  {
  }

  // ---- The repository ----

  class UserRepository {
    var table: Table

    constructor ()
      ensures table == EMPTY
    {
      table := EMPTY;
    }

    method Create(uuid: string, email: string, name: string, hash: Hash) returns (id: int, r: Reply)
      modifies this
      ensures (table, r) == Insert(old(table), uuid, email, name, hash)
      ensures id == old(table).nextId && table.nextId == id + 1
    {
      id := table.nextId;
      table := table.(nextId := id + 1);
      if !Storable(email, name) {
        return id, Refused(DatabaseError);
      }
      if email in table.emails || uuid in table.uuids {
        return id, Refused(UniqueViolation);
      }
      table := table.(rows := table.rows[id := User(uuid, email, name, hash, None)]);
      table := table.(emails := table.emails[email := id], uuids := table.uuids[uuid := id]);
      r := Done;
    }

    method Get(uuid: string) returns (found: Option<int>)
      ensures found == ByUuid(table, uuid)
    {
      found := None;
      if uuid in table.uuids {
        var id := table.uuids[uuid];
        if id in table.rows && table.rows[id].deletedAt == None {
          found := Some(id);
        }
      }
    }

    method GetByEmail(email: string) returns (found: Option<int>)
      ensures found == ByEmail(table, email)
    {
      found := None;
      if email in table.emails {
        var id := table.emails[email];
        if id in table.rows && table.rows[id].deletedAt == None {
          found := Some(id);
        }
      }
    }

    method Update(uuid: string, email: Option<string>, name: Option<string>) returns (r: Reply)
      modifies this
      ensures (table, r) == Change(old(table), uuid, email, name)
    {
      var found := Get(uuid);
      if found == None {
        return Refused(UserNotFound);
      }
      var id := found.value;
      var row := table.rows[id];
      var oldEmail := row.email;
      if email.Some? {
        row := row.(email := email.value);
      }
      if name.Some? {
        row := row.(name := name.value);
      }
      if !Storable(row.email, row.name) || (row.email in table.emails && table.emails[row.email] != id) {
        return Refused(DatabaseError);
      }
      table := table.(rows := table.rows[id := row]);
      table := table.(emails := (table.emails - {oldEmail})[row.email := id]);
      r := Done;
    }

    method UpdatePasswordByID(id: int, hash: Hash) returns (r: Reply)
      modifies this
      ensures (table, r) == SetPassword(old(table), id, hash)
    {
      if !Active(table, id) {
        return Refused(UserNotFound);
      }
      table := table.(rows := table.rows[id := table.rows[id].(hash := hash)]);
      r := Done;
    }

    method UpdatePassword(uuid: string, hash: Hash) returns (r: Reply)
      modifies this
      ensures (table, r) == var id := ByUuid(old(table), uuid);
                            if id.None? then (old(table), Refused(UserNotFound))
                            else SetPassword(old(table), id.value, hash)
    {
      var found := Get(uuid);
      if found == None {
        return Refused(UserNotFound);
      }
      r := UpdatePasswordByID(found.value, hash);
    }

    method Delete(uuid: string, now: int) returns (r: Reply)
      modifies this
      ensures (table, r) == SoftDelete(old(table), uuid, now)
    {
      var found := Get(uuid);
      if found == None {
        return Refused(UserNotFound);
      }
      table := table.(rows := table.rows[found.value := table.rows[found.value].(deletedAt := Some(now))]);
      r := Done;
    }
  }
}
