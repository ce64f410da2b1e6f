/**
  The reference the account operations are checked against: who owns which email, and the name and
  current password behind each email. No table, no row ids, no deleted rows, no hashes.
 */
module Ledger {
  import opened Common
  import opened Users
  import opened Credentials
  import opened Text

  datatype Account = Account(uuid: string, name: string, password: string)

  datatype Grant = Grant(uuid: string, expiresAt: int, used: bool)

  /** open has the open accounts by email and owner their emails; taken and known remember closed ones too. */
  datatype Ledger = Ledger(
    open: map<string, Account>,
    owner: map<string, string>,
    taken: set<string>,
    known: set<string>,
    grants: map<string, Grant>)

  const NOTHING := Ledger(map[], map[], {}, {}, map[])

  // ---- The limits, in the ledger's own terms ----

  const NOBODY := "00000000-0000-0000-0000-000000000000"

  /** bcrypt hashes at most 72 bytes. */
  predicate Fits(password: string) {
    |Utf8(password)| <= 72
  }

  /** What a candidate password is compared as. */
  function ReadAs(lib: Library, candidate: string): string {
    if Fits(candidate) then candidate else lib.cut(candidate)
  }

  predicate GoodEmail(lib: Library, email: string) {
    email != "" && lib.validEmail(email)
  }

  predicate GoodChange(lib: Library, email: Option<string>, name: Option<string>) {
    (email.Some? ==> GoodEmail(lib, email.value)) && (name.Some? ==> 1 <= |name.value| <= 100)
  }

  /** Names have 1 to 100 characters, new passwords at least 6. */
  predicate Acceptable(lib: Library, op: Op) {
    match op
    case Register(email, name, password, _) => GoodEmail(lib, email) && 1 <= |name| <= 100 && |password| >= 6
    case UpdateMe(uuid, email, name) => uuid != NOBODY && GoodChange(lib, email, name)
    case UpdateUser(uuid, email, name) => uuid != NOBODY && GoodChange(lib, email, name)
    case ChangePassword(uuid, current, next) => uuid != NOBODY && current != "" && |next| >= 6
    case RequestPasswordReset(email, _, _) => GoodEmail(lib, email)
    case ConfirmPasswordReset(token, password, _) => token != "" && |password| >= 6
    case DeleteUser(_, _) => true
    case CleanupResets(_) => true
  }

  // ---- The entries ----

  function Open(joinable: bool, l: Ledger, uuid: string, email: string, name: string, password: string): (Ledger, Reply) {
    if |email| > 255 then (l, Refused(DatabaseError))
    else if email in l.taken || uuid in l.known then (l, Refused(UserAlreadyExists))
    else if !joinable then (l, Refused(GroupNotFound))
    else
      (l.(open := l.open[email := Account(uuid, name, password)], owner := l.owner[uuid := email],
          taken := l.taken + {email}, known := l.known + {uuid}), Done)
  }

  function Renamed(a: Account, name: Option<string>): Account {
    if name.Some? then a.(name := name.value) else a
  }

  /** An updated account takes its password along and frees its old email. */
  function Rename(l: Ledger, uuid: string, email: Option<string>, name: Option<string>): (Ledger, Reply) {
    if uuid !in l.owner || l.owner[uuid] !in l.open then (l, Refused(UserNotFound))
    else
      var from := l.owner[uuid];
      var to := if email.Some? then email.value else from;
      if to != from && (|to| > 255 || !NoCapitals(to) || to in l.taken) then (l, Refused(DatabaseError))
      else
        (l.(open := (l.open - {from})[to := Renamed(l.open[from], name)], owner := l.owner[uuid := to],
            taken := l.taken - {from} + {to}), Done)
  }

  /** The open accounts after the one with this uuid got another password. */
  function WithPassword(l: Ledger, uuid: string, password: string): map<string, Account>
    requires uuid in l.owner
  {
    var e := l.owner[uuid];
    if e in l.open then l.open[e := l.open[e].(password := password)] else l.open
  }

  function Rekey(l: Ledger, uuid: string, current: string, next: string): (Ledger, Reply) {
    if uuid !in l.owner then (l, Refused(UserNotFound))
    else if !Opens(l, l.owner[uuid], current) then (l, Refused(InvalidCredentials))
    else if !Fits(next) then (l, Refused(PasswordTooLong))
    else (l.(open := WithPassword(l, uuid, next)), Done)
  }

  function Promise(l: Ledger, email: string, token: string, now: int): (Ledger, Reply) {
    if email !in l.open then (l, Done)
    else if token in l.grants then (l, Refused(DatabaseError))
    else (l.(grants := l.grants[token := Grant(l.open[email].uuid, now + 3600, false)]), Done)
  }

  function Redeem(l: Ledger, token: string, password: string, now: int): (Ledger, Reply) {
    if token !in l.grants then (l, Refused(TokenNotFound))
    else if l.grants[token].used then (l, Refused(TokenAlreadyUsed))
    else if now > l.grants[token].expiresAt then (l, Refused(TokenExpired))
    else if !Fits(password) then (l, Refused(PasswordTooLong))
    else
      var uuid := l.grants[token].uuid;
      if uuid !in l.owner then (l, Refused(UserNotFound))
      else
        (l.(open := WithPassword(l, uuid, password),
            grants := l.grants[token := l.grants[token].(used := true)]), Done)
  }

  function Close(l: Ledger, uuid: string): (Ledger, Reply) {
    if uuid !in l.owner then (l, Refused(UserNotFound))
    else (l.(owner := l.owner - {uuid}, open := l.open - {l.owner[uuid]}), Done)
  }

  function Tidy(l: Ledger, now: int): Ledger {
    l.(grants := map t | t in l.grants && l.grants[t].expiresAt >= now && !l.grants[t].used :: l.grants[t])
  }

  function Enter(lib: Library, joinable: bool, l: Ledger, op: Op): (Ledger, Reply) {
    match op
    case Register(email, name, password, uuid) =>
      if Fits(password) then Open(joinable, l, uuid, Normalize(email), name, password) else (l, Refused(PasswordTooLong))
    case UpdateMe(uuid, email, name) => Rename(l, uuid, if email.Some? then Some(Normalize(email.value)) else None, name)
    case UpdateUser(uuid, email, name) => Rename(l, uuid, email, name)
    case ChangePassword(uuid, current, next) => Rekey(l, uuid, ReadAs(lib, current), next)
    case RequestPasswordReset(email, token, now) => Promise(l, Normalize(email), token, now)
    case ConfirmPasswordReset(token, password, now) => Redeem(l, token, password, now)
    case DeleteUser(uuid, now) => Close(l, uuid)
    case CleanupResets(now) => (Tidy(l, now), Done)
  }

  function Entry(lib: Library, joinable: bool, l: Ledger, op: Op): (Ledger, Reply) {
    if Acceptable(lib, op) then Enter(lib, joinable, l, op) else (l, Refused(ValidationFailed))
  }

  predicate Opens(l: Ledger, email: string, password: string) {
    email in l.open && l.open[email].password == password
  }

  function Entries(lib: Library, joinable: bool, ops: seq<Op>): Ledger {
    if ops == [] then NOTHING
    else Entry(lib, joinable, Entries(lib, joinable, ops[..|ops| - 1]), ops[|ops| - 1]).0
  }

  // ---- The limits are the service's ----

  lemma HashableFits(lib: Library, password: string)
    ensures Hashable(password) <==> Fits(password)
    ensures Seen(lib, password) == ReadAs(lib, password)
  {
    ByteLengthExactly(password);
  }

  /** The service accepts exactly the inputs within the limits. */
  lemma ValidExactly(lib: Library, op: Op)
    ensures Valid(lib, op) <==> Acceptable(lib, op)
  {
  }

  // ---- The database refines the ledger ----

  function AccountOf(u: User): Account {
    Account(u.uuid, u.name, u.hash.of)
  }

  function OpenOf(t: Table): map<string, Account> {
    map e | e in t.emails && Active(t, t.emails[e]) :: AccountOf(t.rows[t.emails[e]])
  }

  function OwnerOf(t: Table): map<string, string> {
    map u | u in t.uuids && Active(t, t.uuids[u]) :: t.rows[t.uuids[u]].email
  }

  function UuidOf(t: Table, id: int): string {
    if id in t.rows then t.rows[id].uuid else ""
  }

  function GrantOf(t: Table, reset: Reset): Grant {
    Grant(UuidOf(t, reset.userId), reset.expiresAt, reset.used)
  }

  function GrantsOf(t: Table, resets: map<string, Reset>): map<string, Grant> {
    map token | token in resets :: GrantOf(t, resets[token])
  }

  function View(db: Db): Ledger {
    Ledger(OpenOf(db.users), OwnerOf(db.users), db.users.emails.Keys, db.users.uuids.Keys, GrantsOf(db.users, db.resets))
  }

  lemma Looked(t: Table, uuid: string)
    requires Indexed(t)
    ensures ByUuid(t, uuid).Some? <==> uuid in OwnerOf(t)
    ensures var id := ByUuid(t, uuid);
            id.Some? ==>
              var u := t.rows[id.value];
              && u.uuid == uuid && OwnerOf(t)[uuid] == u.email
              && u.email in OpenOf(t) && OpenOf(t)[u.email] == AccountOf(u)
  {
  }

  lemma LookedByEmail(t: Table, email: string)
    requires Indexed(t)
    ensures ByEmail(t, email).Some? <==> email in OpenOf(t)
    ensures var id := ByEmail(t, email);
            id.Some? ==> var u := t.rows[id.value]; OpenOf(t)[email] == AccountOf(u) && u.email == email
  {
  }

  /** Two maps agree about one key. */
  predicate SameAt<V(==)>(a: map<string, V>, b: map<string, V>, k: string) {
    (k in a <==> k in b) && (k in a ==> a[k] == b[k])
  }

  lemma Moved<V>(a: map<string, V>, b: map<string, V>, from: string, to: string)
    requires forall k | k != from && k != to :: SameAt(a, b, k)
    requires to in b && (from != to ==> from !in b)
    ensures b == (a - {from})[to := b[to]]
  {
    var c := (a - {from})[to := b[to]];
    forall k ensures SameAt(b, c, k) {
      assert k != from && k != to ==> SameAt(a, b, k);
    }
    assert forall k :: (k in b <==> SameAt(b, c, k) && k in c);
  }

  lemma Same<V>(a: map<string, V>, b: map<string, V>)
    requires forall k :: SameAt(a, b, k)
    ensures a == b
  {
    forall k ensures k in a <==> k in b {
      assert SameAt(a, b, k);
    }
    forall k | k in a ensures a[k] == b[k] {
      assert SameAt(a, b, k);
    }
  }

  lemma Removed<V>(a: map<string, V>, b: map<string, V>, k: string)
    requires k !in b && forall i | i != k :: SameAt(a, b, i)
    ensures b == a - {k}
  {
    forall i ensures SameAt(b, a - {k}, i) {
      assert i != k ==> SameAt(a, b, i);
    }
    assert forall i :: (i in b <==> SameAt(b, a - {k}, i) && i in a - {k});
  }

  predicate SameRow(t: Table, u: Table, id: int) {
    (id in t.rows <==> id in u.rows) && (id in t.rows ==> t.rows[id] == u.rows[id])
  }

  ghost predicate OnlyRow(t: Table, u: Table, id: int) {
    Indexed(t) && Indexed(u) && forall i | i != id :: SameRow(t, u, i)
  }

  /** A change to one row shows only under the emails and the uuids it has before and after. */
  lemma OtherEmails(t: Table, u: Table, id: int, e: string)
    requires OnlyRow(t, u, id)
    requires (id in t.rows ==> t.rows[id].email != e) && (id in u.rows ==> u.rows[id].email != e)
    ensures SameAt(OpenOf(t), OpenOf(u), e) && SameAt(t.emails, u.emails, e)
  {
    if e in t.emails {
      assert SameRow(t, u, t.emails[e]);
    }
    if e in u.emails {
      assert SameRow(t, u, u.emails[e]);
    }
  }

  lemma OtherUuids(t: Table, u: Table, id: int, uuid: string)
    requires OnlyRow(t, u, id)
    requires (id in t.rows ==> t.rows[id].uuid != uuid) && (id in u.rows ==> u.rows[id].uuid != uuid)
    ensures SameAt(OwnerOf(t), OwnerOf(u), uuid) && SameAt(t.uuids, u.uuids, uuid)
  {
    if uuid in t.uuids {
      assert SameRow(t, u, t.uuids[uuid]);
    }
    if uuid in u.uuids {
      assert SameRow(t, u, u.uuids[uuid]);
    }
  }

  /** An active row written under an email and a uuid, in place of what it had before. */
  lemma RowWritten(t: Table, u: Table, id: int, from: string)
    requires OnlyRow(t, u, id) && Active(u, id)
    requires id in t.rows ==> t.rows[id].email == from && t.rows[id].uuid == u.rows[id].uuid
    requires id !in t.rows ==> from == u.rows[id].email
    ensures var row := u.rows[id];
            && OpenOf(u) == (OpenOf(t) - {from})[row.email := AccountOf(row)]
            && OwnerOf(u) == OwnerOf(t)[row.uuid := row.email]
            && u.emails == (t.emails - {from})[row.email := id] && u.uuids == t.uuids[row.uuid := id]
  {
    var row := u.rows[id];
    Looked(u, row.uuid);
    forall e | e != from && e != row.email ensures SameAt(OpenOf(t), OpenOf(u), e) && SameAt(t.emails, u.emails, e) {
      OtherEmails(t, u, id, e);
    }
    forall i | i != row.uuid ensures SameAt(OwnerOf(t), OwnerOf(u), i) && SameAt(t.uuids, u.uuids, i) {
      OtherUuids(t, u, id, i);
    }
    assert from in u.emails ==> u.emails[from] == id || SameRow(t, u, u.emails[from]);
    Moved(OpenOf(t), OpenOf(u), from, row.email);
    Moved(t.emails, u.emails, from, row.email);
    Moved(OwnerOf(t), OwnerOf(u), row.uuid, row.uuid);
    Moved(t.uuids, u.uuids, row.uuid, row.uuid);
  }

  lemma InsertView(t: Table, uuid: string, email: string, name: string, hash: Hash)
    requires Indexed(t) && Insert(t, uuid, email, name, hash).1.Done?
    ensures var u := Insert(t, uuid, email, name, hash).0;
            && OpenOf(u) == OpenOf(t)[email := Account(uuid, name, hash.of)] && OwnerOf(u) == OwnerOf(t)[uuid := email]
            && u.emails.Keys == t.emails.Keys + {email} && u.uuids.Keys == t.uuids.Keys + {uuid}
  {
    var u := Insert(t, uuid, email, name, hash).0;
    InsertKeeps(t, uuid, email, name, hash);
    InsertedRow(t, uuid, email, name, hash);
    RowWritten(t, u, t.nextId, email);
    NotThere(OpenOf(t), email);
    NotThere(t.emails, email);
  }

  lemma NotThere<V>(a: map<string, V>, k: string)
    requires k !in a
    ensures a - {k} == a
  {
  }

  lemma InsertedRow(t: Table, uuid: string, email: string, name: string, hash: Hash)
    requires Indexed(t) && Insert(t, uuid, email, name, hash).1.Done?
    ensures var u, id := Insert(t, uuid, email, name, hash).0, t.nextId;
            id !in t.rows && Active(u, id) && u.rows[id] == User(uuid, email, name, hash, None) &&
            forall i | i != id :: SameRow(t, u, i)
  {
  }

  lemma SetPasswordView(t: Table, id: int, hash: Hash)
    requires Indexed(t) && Active(t, id)
    ensures var u, row := SetPassword(t, id, hash).0, t.rows[id];
            && row.uuid in OwnerOf(t) && OwnerOf(t)[row.uuid] == row.email
            && OpenOf(u) == OpenOf(t)[row.email := Account(row.uuid, row.name, hash.of)] && OwnerOf(u) == OwnerOf(t)
  {
    SetPasswordKeeps(t, id, hash);
    RowWritten(t, SetPassword(t, id, hash).0, id, t.rows[id].email);
    Looked(t, t.rows[id].uuid);
  }

  lemma ChangeView(t: Table, uuid: string, email: Option<string>, name: Option<string>)
    requires Indexed(t) && Change(t, uuid, email, name).1.Done?
    ensures var u, from := Change(t, uuid, email, name).0, t.rows[ByUuid(t, uuid).value].email;
            var to := if email.Some? then email.value else from;
            && from in OpenOf(t)
            && OpenOf(u) == (OpenOf(t) - {from})[to := Renamed(OpenOf(t)[from], name)]
            && OwnerOf(u) == OwnerOf(t)[uuid := to]
            && u.emails.Keys == t.emails.Keys - {from} + {to} && u.uuids.Keys == t.uuids.Keys
  {
    var id := ByUuid(t, uuid).value;
    ChangeKeeps(t, uuid, email, name);
    RowWritten(t, Change(t, uuid, email, name).0, id, t.rows[id].email);
    Looked(t, uuid);
  }

  lemma SoftDeleteView(t: Table, uuid: string, now: int)
    requires Indexed(t) && ByUuid(t, uuid).Some?
    ensures var u, row := SoftDelete(t, uuid, now).0, t.rows[ByUuid(t, uuid).value];
            && OpenOf(u) == OpenOf(t) - {row.email} && OwnerOf(u) == OwnerOf(t) - {uuid}
            && u.emails == t.emails && u.uuids == t.uuids
  {
    var id := ByUuid(t, uuid).value;
    var u, row := SoftDelete(t, uuid, now).0, t.rows[id];
    SoftDeleteKeeps(t, uuid, now);
    Looked(t, uuid);
    forall e | e != row.email ensures SameAt(OpenOf(t), OpenOf(u), e) { OtherEmails(t, u, id, e); }
    forall i | i != uuid ensures SameAt(OwnerOf(t), OwnerOf(u), i) { OtherUuids(t, u, id, i); }
    Removed(OpenOf(t), OpenOf(u), row.email);
    Removed(OwnerOf(t), OwnerOf(u), uuid);
  }

  lemma GrantsView(db: Db, users: Table)
    requires Consistent(db) && Keeps(db.users, users)
    ensures GrantsOf(users, db.resets) == GrantsOf(db.users, db.resets)
  {
  }

  // ---- Each operation is one entry in the ledger ----

  ghost predicate Refines(d: (Db, Reply), l: (Ledger, Reply)) {
    View(d.0) == l.0 && d.1 == l.1
  }

  /** The id sequence is no part of the view. */
  lemma SameView(db: Db, users: Table)
    requires Consistent(db)
    requires users == db.users.(nextId := users.nextId) && db.users.nextId <= users.nextId
    ensures View(db.(users := users)) == View(db)
  {
    var t := db.users;
    forall e ensures SameAt(OpenOf(t), OpenOf(users), e) {}
    forall i ensures SameAt(OwnerOf(t), OwnerOf(users), i) {}
    Same(OpenOf(t), OpenOf(users));
    Same(OwnerOf(t), OwnerOf(users));
    GrantsView(db, users);
  }

  lemma OpenedView(db: Db, uuid: string, email: string, name: string, password: string)
    requires Consistent(db) && Insert(db.users, uuid, email, name, Hash(password)).1.Done?
    ensures var users, l := Insert(db.users, uuid, email, name, Hash(password)).0, View(db);
            var members := db.members + {(db.users.nextId, DEFAULT_GROUP)};
            View(db.(users := users, members := members)) ==
              l.(open := l.open[email := Account(uuid, name, password)], owner := l.owner[uuid := email],
                 taken := l.taken + {email}, known := l.known + {uuid})
  {
    var users := Insert(db.users, uuid, email, name, Hash(password)).0;
    InsertKeeps(db.users, uuid, email, name, Hash(password));
    InsertView(db.users, uuid, email, name, Hash(password));
    GrantsView(db, users);
  }

  lemma OpenRefines(db: Db, uuid: string, email: string, name: string, password: string)
    requires Consistent(db) && Lower(email) == email && ValidName(name)
    ensures Refines(CreateMember(db, uuid, email, name, Hash(password)),
                    Open(DEFAULT_GROUP in db.groups, View(db), uuid, email, name, password))
  {
    var (users, r) := Insert(db.users, uuid, email, name, Hash(password));
    if r.Done? && DEFAULT_GROUP in db.groups {
      OpenedView(db, uuid, email, name, password);
    } else {
      SameView(db, db.users.(nextId := users.nextId));
    }
  }

  lemma RenameReply(db: Db, uuid: string, email: Option<string>, name: Option<string>)
    requires Consistent(db) && (name.Some? ==> ValidName(name.value))
    ensures Change(db.users, uuid, email, name).1 == Rename(View(db), uuid, email, name).1
  {
    Looked(db.users, uuid);
    var id := ByUuid(db.users, uuid);
    if id.Some? {
      var row := db.users.rows[id.value];
      assert Storable(row.email, row.name);
      if email.Some? {
        LowerCheckExactly(email.value);
      }
    }
  }

  lemma RenameRefines(db: Db, uuid: string, email: Option<string>, name: Option<string>)
    requires Consistent(db) && (name.Some? ==> ValidName(name.value))
    ensures Refines(AfterUpdate(db, uuid, email, name), Rename(View(db), uuid, email, name))
  {
    var (users, r) := Change(db.users, uuid, email, name);
    RenameReply(db, uuid, email, name);
    Looked(db.users, uuid);
    if r.Done? {
      ChangeKeeps(db.users, uuid, email, name);
      ChangeView(db.users, uuid, email, name);
      GrantsView(db, users);
    } else {
      assert users == db.users;
    }
  }

  lemma RekeyRefines(db: Db, uuid: string, current: string, next: string)
    requires Consistent(db)
    ensures Refines(AfterChangePassword(db, uuid, current, next), Rekey(View(db), uuid, current, next))
  {
    ByteLengthExactly(next);
    Looked(db.users, uuid);
    var id := ByUuid(db.users, uuid);
    if id.Some? {
      SetPasswordKeeps(db.users, id.value, Hash(next));
      SetPasswordView(db.users, id.value, Hash(next));
      GrantsView(db, SetPassword(db.users, id.value, Hash(next)).0);
    }
  }

  lemma PromiseRefines(db: Db, email: string, token: string, now: int)
    requires Consistent(db)
    ensures Refines(AfterRequest(db, email, token, now), Promise(View(db), email, token, now))
  {
    LookedByEmail(db.users, email);
    var id := ByEmail(db.users, email);
    if id.Some? && token !in db.resets {
      var d := AfterRequest(db, email, token, now).0;
      var grant := Grant(View(db).open[email].uuid, now + 3600, false);
      assert GrantsOf(d.users, d.resets) == GrantsOf(db.users, db.resets)[token := grant];
    }
  }

  lemma RedeemedRefines(db: Db, token: string, password: string)
    requires Consistent(db) && token in db.resets && Active(db.users, db.resets[token].userId)
    ensures var reset, l := db.resets[token], View(db);
            var uuid := db.users.rows[reset.userId].uuid;
            && uuid in l.owner
            && View(db.(users := SetPassword(db.users, reset.userId, Hash(password)).0,
                        resets := db.resets[token := reset.(used := true)])) ==
               l.(open := WithPassword(l, uuid, password),
                  grants := l.grants[token := l.grants[token].(used := true)])
  {
    var id, hash := db.resets[token].userId, Hash(password);
    var users := SetPassword(db.users, id, hash).0;
    SetPasswordKeeps(db.users, id, hash);
    SetPasswordView(db.users, id, hash);
    GrantsView(db, users);
    MarkView(users, db.resets, token);
  }

  lemma RedeemRefines(db: Db, token: string, password: string, now: int)
    requires Consistent(db)
    ensures Refines(AfterConfirm(db, token, password, now), Redeem(View(db), token, password, now))
  {
    ByteLengthExactly(password);
    if token in db.resets {
      var reset := db.resets[token];
      Looked(db.users, db.users.rows[reset.userId].uuid);
      if reset.used || now > reset.expiresAt || !Hashable(password) {
      } else if Active(db.users, reset.userId) {
        RedeemedRefines(db, token, password);
      }
    }
  }

  lemma MarkView(t: Table, resets: map<string, Reset>, token: string)
    requires token in resets
    ensures GrantsOf(t, resets[token := resets[token].(used := true)]) ==
            GrantsOf(t, resets)[token := GrantsOf(t, resets)[token].(used := true)]
  {
  }

  lemma CloseRefines(db: Db, uuid: string, now: int)
    requires Consistent(db)
    ensures Refines(AfterDelete(db, uuid, now), Close(View(db), uuid))
  {
    Looked(db.users, uuid);
    if ByUuid(db.users, uuid).Some? {
      SoftDeleteKeeps(db.users, uuid, now);
      SoftDeleteView(db.users, uuid, now);
      GrantsView(db, SoftDelete(db.users, uuid, now).0);
    }
  }

  lemma TidyRefines(db: Db, now: int)
    requires Consistent(db)
    ensures View(db.(resets := AfterCleanup(db.resets, now))) == Tidy(View(db), now)
  {
  }

  lemma EffectRefines(lib: Library, db: Db, op: Op)
    requires Consistent(db) && Valid(lib, op)
    ensures Refines(Effect(lib, db, op), Enter(lib, DEFAULT_GROUP in db.groups, View(db), op))
  {
    match op
    case Register(email, name, password, uuid) =>
      NormalizeIsLower(email);
      HashableFits(lib, password);
      OpenRefines(db, uuid, Normalize(email), name, password);
    case UpdateMe(uuid, email, name) => RenameRefines(db, uuid, NormalizeOption(email), name);
    case UpdateUser(uuid, email, name) => RenameRefines(db, uuid, email, name);
    case ChangePassword(uuid, current, next) =>
      HashableFits(lib, current);
      RekeyRefines(db, uuid, Seen(lib, current), next);
    case RequestPasswordReset(email, token, now) => PromiseRefines(db, Normalize(email), token, now);
    case ConfirmPasswordReset(token, password, now) => RedeemRefines(db, token, password, now);
    case DeleteUser(uuid, now) => CloseRefines(db, uuid, now);
    case CleanupResets(now) => TidyRefines(db, now);
  }

  lemma StepRefines(lib: Library, db: Db, op: Op)
    requires Consistent(db)
    ensures Refines(Apply(lib, db, op), Entry(lib, DEFAULT_GROUP in db.groups, View(db), op))
  {
    ValidExactly(lib, op);
    if Valid(lib, op) {
      EffectRefines(lib, db, op);
    }
  }

  lemma StartRefines(groups: set<string>)
    ensures View(Init(groups)) == NOTHING
  {
  }

  lemma {:induction false} PictureOfRun(lib: Library, groups: set<string>, ops: seq<Op>)
    ensures View(Run(lib, Init(groups), ops)) == Entries(lib, DEFAULT_GROUP in groups, ops)
  {
    if ops == [] {
      StartRefines(groups);
    } else {
      var before, op := ops[..|ops| - 1], ops[|ops| - 1];
      PictureOfRun(lib, groups, before);
      RunKeeps(lib, groups, before);
      GroupsStay(lib, groups, before);
      StepRefines(lib, Run(lib, Init(groups), before), op);
    }
  }

  /** After any run the database is the ledger's picture of it, and answers the next operation as the ledger does. */
  lemma RunRefines(lib: Library, groups: set<string>, ops: seq<Op>, op: Op)
    ensures var db, l := Run(lib, Init(groups), ops), Entries(lib, DEFAULT_GROUP in groups, ops);
            View(db) == l && Apply(lib, db, op).1 == Entry(lib, DEFAULT_GROUP in groups, l, op).1
  {
    PictureOfRun(lib, groups, ops);
    RunKeeps(lib, groups, ops);
    GroupsStay(lib, groups, ops);
    StepRefines(lib, Run(lib, Init(groups), ops), op);
  }

  /** After any run, a login succeeds exactly with an open account's email, up to case and surrounding space, and its current password. */
  lemma LoginExactly(lib: Library, groups: set<string>, ops: seq<Op>, email: string, password: string)
    ensures var db, l := Run(lib, Init(groups), ops), Entries(lib, DEFAULT_GROUP in groups, ops);
            Login(lib, db, email, password).LoggedIn? <==>
              GoodEmail(lib, email) && password != "" && Opens(l, Normalize(email), ReadAs(lib, password))
  {
    HashableFits(lib, password);
    PictureOfRun(lib, groups, ops);
    RunKeeps(lib, groups, ops);
    LookedByEmail(Run(lib, Init(groups), ops).users, Normalize(email));
  }

  /** The session is that account's; an unknown email and a wrong password are refused alike. */
  lemma LoginSession(lib: Library, groups: set<string>, ops: seq<Op>, email: string, password: string)
    ensures var db, l := Run(lib, Init(groups), ops), Entries(lib, DEFAULT_GROUP in groups, ops);
            match Login(lib, db, email, password)
            case LoggedIn(id) =>
              Active(db.users, id) && Normalize(email) in l.open && AccountOf(db.users.rows[id]) == l.open[Normalize(email)]
            case Denied(e) =>
              e == if GoodEmail(lib, email) && password != "" then InvalidCredentials else ValidationFailed
  {
    PictureOfRun(lib, groups, ops);
    RunKeeps(lib, groups, ops);
    LookedByEmail(Run(lib, Init(groups), ops).users, Normalize(email));
  }

  // ---- What the ledger itself guarantees ----

  /** Accounts and emails are in one-to-one correspondence; open ones are among those ever taken. */
  ghost predicate Sound(l: Ledger) {
    && (forall u | u in l.owner :: u in l.known && l.owner[u] in l.open && l.open[l.owner[u]].uuid == u)
    && (forall e | e in l.open :: e in l.taken && l.open[e].uuid in l.owner && l.owner[l.open[e].uuid] == e)
  }

  lemma RenameSound(l: Ledger, uuid: string, email: Option<string>, name: Option<string>)
    requires Sound(l)
    ensures Sound(Rename(l, uuid, email, name).0)
  {
  }

  lemma EnterSound(lib: Library, joinable: bool, l: Ledger, op: Op)
    requires Sound(l)
    ensures Sound(Enter(lib, joinable, l, op).0)
  {
    if op.UpdateMe? {
      RenameSound(l, op.uuid, if op.newEmail.Some? then Some(Normalize(op.newEmail.value)) else None, op.newName);
    } else if op.UpdateUser? {
      RenameSound(l, op.uuid, op.newEmail, op.newName);
    }
  }

  lemma {:induction false} EntriesSound(lib: Library, joinable: bool, ops: seq<Op>)
    ensures Sound(Entries(lib, joinable, ops))
  {
    if ops != [] {
      EntriesSound(lib, joinable, ops[..|ops| - 1]);
      EnterSound(lib, joinable, Entries(lib, joinable, ops[..|ops| - 1]), ops[|ops| - 1]);
    }
  }

  function PasswordOf(l: Ledger, uuid: string): Option<string> {
    if uuid in l.owner && l.owner[uuid] in l.open then Some(l.open[l.owner[uuid]].password) else None
  }

  /** The op shows the account's current password, or an unused token of that account within its hour. */
  predicate Proves(lib: Library, l: Ledger, op: Op, uuid: string) {
    || (op.ChangePassword? && op.uuid == uuid && PasswordOf(l, uuid) == Some(ReadAs(lib, op.oldPassword)))
    || (op.ConfirmPasswordReset? && op.token in l.grants && l.grants[op.token].uuid == uuid &&
        !l.grants[op.token].used && op.now <= l.grants[op.token].expiresAt)
  }

  /** No operation gives an open account another password without showing its password or a live token of it. */
  lemma PasswordNeedsProof(lib: Library, joinable: bool, ops: seq<Op>, op: Op, uuid: string)
    ensures var l := Entries(lib, joinable, ops);
            var after := Entry(lib, joinable, l, op).0;
            uuid in l.owner && uuid in after.owner && PasswordOf(after, uuid) != PasswordOf(l, uuid) ==> Proves(lib, l, op, uuid)
  {
    EntriesSound(lib, joinable, ops);
    EnterSound(lib, joinable, Entries(lib, joinable, ops), op);
  }
}
