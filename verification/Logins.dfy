/**
  An account is the same under every way to write its email: in either case, with or without white space around it.
 */
module Logins {
  import opened Common
  import opened Users
  import opened Credentials
  import opened Text

  /** The session is that of the account with this uuid. */
  predicate LogsInTo(db: Db, s: Session, uuid: string) {
    s.LoggedIn? && s.id in db.users.rows && db.users.rows[s.id].uuid == uuid
  }

  lemma Registered(lib: Library, db: Db, email: string, name: string, password: string, uuid: string)
    requires Consistent(db) && Apply(lib, db, Register(email, name, password, uuid)).1.Done?
    ensures var d, id := Apply(lib, db, Register(email, name, password, uuid)).0, db.users.nextId;
            && Consistent(d) && ByEmail(d.users, Normalize(email)) == Some(id)
            && d.users.rows[id] == User(uuid, Normalize(email), name, Hash(password), None)
    ensures password != "" && Hashable(password)
  {
    ApplyKeeps(lib, db, Register(email, name, password, uuid));
  }

  /**
    In any database that a run can lead to: after a registration, a login with its password gets into the new account
    exactly with an email that differs from the registered one in case and surrounding white space at most.
   */
  lemma RegisteredLogsIn(
    lib: Library, db: Db, email: string, name: string, password: string, uuid: string, other: string)
    requires Consistent(db) && Apply(lib, db, Register(email, name, password, uuid)).1.Done?
    requires other != "" && lib.validEmail(other)
    ensures var d := Apply(lib, db, Register(email, name, password, uuid)).0;
            LogsInTo(d, Login(lib, d, other, password), uuid) <==> SameEmail(email, other)
  {
    Registered(lib, db, email, name, password, uuid);
    SameEmailExactly(email, other);
    var d, id := Apply(lib, db, Register(email, name, password, uuid)).0, db.users.nextId;
    var s := Login(lib, d, other, password);
    if LogsInTo(d, s, uuid) {
      EmailsUnique(d.users, s.id, id);
    }
  }

  /** And nobody else can register such an email, or change to it. */
  lemma RegisteredIsTaken(
    lib: Library, db: Db, email: string, name: string, password: string, uuid: string, other: string, op: Op)
    requires Consistent(db) && Apply(lib, db, Register(email, name, password, uuid)).1.Done? && SameEmail(email, other)
    requires var d := Apply(lib, db, Register(email, name, password, uuid)).0;
             || (op.Register? && op.email == other && Hashable(op.password))
             || (op.UpdateMe? && op.newEmail == Some(other) && op.uuid != uuid && ByUuid(d.users, op.uuid).Some?)
    requires Valid(lib, op)
    ensures var d := Apply(lib, db, Register(email, name, password, uuid)).0;
            Apply(lib, d, op).1 == Refused(if op.Register? then UserAlreadyExists else DatabaseError)
  {
    Registered(lib, db, email, name, password, uuid);
    SameEmailExactly(email, other);
  }

  /** No operation tells apart two such emails. */
  lemma SameEmailSameEffect(lib: Library, db: Db, a: string, b: string)
    requires SameEmail(a, b) && ValidEmail(lib, a) && ValidEmail(lib, b)
    ensures forall password :: Login(lib, db, a, password) == Login(lib, db, b, password)
    ensures forall name, password, uuid ::
              Apply(lib, db, Register(a, name, password, uuid)) == Apply(lib, db, Register(b, name, password, uuid))
    ensures forall uuid, name :: Apply(lib, db, UpdateMe(uuid, Some(a), name)) == Apply(lib, db, UpdateMe(uuid, Some(b), name))
    ensures forall token, now ::
              Apply(lib, db, RequestPasswordReset(a, token, now)) == Apply(lib, db, RequestPasswordReset(b, token, now))
  {
    SameEmailExactly(a, b);
  }
}
