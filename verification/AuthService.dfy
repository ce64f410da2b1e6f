/**
  The account operations step by step, through the repositories. Whatever the steps of an operation,
  the database afterwards shows the ledger's entry for it, and the answer is the ledger's.
 */
module AuthService {
  import opened Common
  import opened Users
  import opened Credentials
  import Blacklist
  import Jwt
  import Ledger

  /** The random ids of a token pair and the two clock readings it is stamped with. */
  datatype Draws = Draws(accessId: string, refreshId: string, accessAt: int, refreshAt: int)

  datatype Pair = Pair(access: Jwt.Token, refresh: Jwt.Token)

  const USER_ROLE := "user"

  /** A pair that says who the user is, with the default group as its only one. */
  function PairFor(jwt: Jwt.Service, u: User, d: Draws): Pair {
    var sub := Jwt.Subject(u.uuid, u.email, USER_ROLE, Some([DEFAULT_GROUP]));
    Pair(Jwt.GenerateAccess(jwt, sub, d.accessId, d.accessAt), Jwt.GenerateRefresh(jwt, sub, d.refreshId, d.refreshAt))
  }

  /** Claims that say who the user is. */
  predicate SaysWho(c: Jwt.Claims, u: User, tokenType: string, id: string) {
    && c.userUUID == u.uuid && c.email == u.email && c.role == "user" && c.groups == ["users"]
    && c.tokenType == tokenType && c.id == id
  }

  /**
    What the pair is good for: the access token validates as the user's until its lifetime is over and never refreshes;
    the refresh token refreshes as the user's until its own is over.
   */
  ghost predicate GoodFor(jwt: Jwt.Service, u: User, d: Draws, pair: Pair) {
    && (forall t1, t2 | d.accessAt <= t1 <= t2 ::
          var v, exp := Jwt.Validate(jwt, pair.access, t1, t2), Jwt.NumericDate(d.accessAt + jwt.accessTTL);
          (v.Ok? <==> t1 < exp && t2 <= exp) && (v.Ok? ==> SaysWho(v.claims, u, "access", d.accessId)))
    && (forall t1, t2 :: Jwt.ValidateRefresh(jwt, pair.access, t1, t2).Err?)
    && (forall t1, t2 | d.refreshAt <= t1 <= t2 ::
          var v, exp := Jwt.ValidateRefresh(jwt, pair.refresh, t1, t2), Jwt.NumericDate(d.refreshAt + jwt.refreshTTL);
          (v.Ok? <==> t1 < exp && t2 <= exp) && (v.Ok? ==> SaysWho(v.claims, u, "refresh", d.refreshId)))
  }

  lemma PairIsGood(jwt: Jwt.Service, u: User, d: Draws)
    ensures GoodFor(jwt, u, d, PairFor(jwt, u, d))
  {
    var sub := Jwt.Subject(u.uuid, u.email, USER_ROLE, Some([DEFAULT_GROUP]));
    forall t1, t2 | d.accessAt <= t1 <= t2 {
      Jwt.WindowRoundTrip(jwt, sub, "access", jwt.accessTTL, d.accessId, d.accessAt, t1, t2);
    }
    forall t1, t2 | d.refreshAt <= t1 <= t2 {
      Jwt.WindowRoundTrip(jwt, sub, "refresh", jwt.refreshTTL, d.refreshId, d.refreshAt, t1, t2);
    }
    assert "access" != "refresh";
  }

  /** An operation's effect keeps the database consistent, and is the ledger's entry for it. */
  lemma Entered(lib: Library, before: Db, op: Op, after: Db, r: Reply)
    requires Consistent(before) && (after, r) == Apply(lib, before, op)
    ensures Consistent(after)
    ensures (Ledger.View(after), r) == Ledger.Entry(lib, DEFAULT_GROUP in before.groups, Ledger.View(before), op)
  {
    ApplyKeeps(lib, before, op);
    Ledger.StepRefines(lib, before, op);
  }

  lemma OnlyDefault(names: seq<string>, members: set<(int, string)>, id: int)
    requires forall m | m in members :: m.1 == DEFAULT_GROUP
    requires (id, DEFAULT_GROUP) in members && forall g :: g in names <==> (id, g) in members
    requires forall i, j | 0 <= i < j < |names| :: names[i] != names[j]
    ensures names == [DEFAULT_GROUP]
  {
    assert DEFAULT_GROUP in names;
    assert |names| > 1 ==> names[0] != names[1];
    forall i | 0 <= i < |names|
      ensures names[i] == DEFAULT_GROUP
    {
      assert names[i] in names && (id, names[i]).1 == DEFAULT_GROUP;
    }
  }

  /** The token_blacklist table: the first revocation of an id stays. */
  class TokenBlacklistRepository {
    var rows: map<string, int>

    constructor ()
      ensures rows == map[]
    {
      rows := map[];
    }

    method Add(jti: string, expiresAt: int)
      modifies this
      ensures jti in rows && rows - {jti} == old(rows) - {jti}
      ensures rows[jti] == if jti in old(rows) then old(rows)[jti] else expiresAt
    {
      if jti !in rows {
        rows := rows[jti := expiresAt];
      }
    }
  }

  class UserGroupRepository {
    const groups: set<string>
    var members: set<(int, string)>

    constructor (groups: set<string>)
      ensures this.groups == groups && members == {}
    {
      this.groups := groups;
      members := {};
    }

    method AddUserToGroup(userId: int, group: string) returns (r: Reply)
      modifies this
      ensures r == if group in groups then Done else Refused(GroupNotFound)
      ensures members == if group in groups then old(members) + {(userId, group)} else old(members)
    {
      if group !in groups {
        return Refused(GroupNotFound);
      }
      members := members + {(userId, group)};
      r := Done;
    }

    /** The names of the user's groups, each once, in some order. */
    method GetGroupNamesByUserID(userId: int) returns (names: seq<string>)
      ensures forall g :: g in names <==> (userId, g) in members
      ensures forall i, j | 0 <= i < j < |names| :: names[i] != names[j]
    {
      names := [];
      var rest := members;
      while rest != {}
        invariant rest <= members
        invariant forall g :: g in names <==> (userId, g) in members - rest
        invariant forall i, j | 0 <= i < j < |names| :: names[i] != names[j]
        decreases |rest|
      {
        var m :| m in rest;
        if m.0 == userId {
          assert m == (userId, m.1);
          names := names + [m.1];
        }
        rest := rest - {m};
      }
    }
  }

  class PasswordResetRepository {
    var tokens: map<string, Reset>

    constructor ()
      ensures tokens == map[]
    {
      tokens := map[];
    }

    method Create(token: string, userId: int, expiresAt: int) returns (r: Reply)
      modifies this
      ensures r == if token in old(tokens) then Refused(DatabaseError) else Done
      ensures tokens == if r.Done? then old(tokens)[token := Reset(userId, expiresAt, false)] else old(tokens)
    {
      if token in tokens {
        return Refused(DatabaseError);
      }
      tokens := tokens[token := Reset(userId, expiresAt, false)];
      r := Done;
    }

    method Get(token: string) returns (found: Option<Reset>)
      ensures found == if token in tokens then Some(tokens[token]) else None
    {
      found := if token in tokens then Some(tokens[token]) else None;
    }

    method MarkUsed(token: string)
      modifies this
      ensures tokens == if token in old(tokens) then old(tokens)[token := old(tokens)[token].(used := true)] else old(tokens)
    {
      if token in tokens {
        tokens := tokens[token := tokens[token].(used := true)];
      }
    }

    /** Deletes the expired and the used rows, one after another. */
    method DeleteExpired(now: int)
      modifies this
      ensures tokens == AfterCleanup(old(tokens), now)
    {
      var rest := tokens.Keys;
      while rest != {}
        invariant rest <= tokens.Keys <= old(tokens).Keys
        invariant forall t | t in old(tokens) ::
                    t in tokens <==> t in rest || !(old(tokens)[t].expiresAt < now || old(tokens)[t].used)
        invariant forall t | t in tokens :: tokens[t] == old(tokens)[t]
        decreases |rest|
      {
        var t :| t in rest;
        if tokens[t].expiresAt < now || tokens[t].used {
          tokens := tokens - {t};
        }
        rest := rest - {t};
      }
    }
  }

  class Service {
    const lib: Library
    const jwt: Jwt.Service
    const userRepo: UserRepository
    const groupRepo: UserGroupRepository
    const resetRepo: PasswordResetRepository
    const tokenRepo: TokenBlacklistRepository
    const blacklist: Blacklist.Blacklist

    constructor (lib: Library, jwt: Jwt.Service, groups: set<string>)
      ensures Valid() && Database() == Init(groups) && tokenRepo.rows == map[] && blacklist.m == map[]
      ensures this.lib == lib && this.jwt == jwt && fresh({userRepo, groupRepo, resetRepo, tokenRepo, blacklist})
    {
      this.lib, this.jwt := lib, jwt;
      userRepo := new UserRepository();
      groupRepo := new UserGroupRepository(groups);
      resetRepo := new PasswordResetRepository();
      tokenRepo := new TokenBlacklistRepository();
      blacklist := new Blacklist.Blacklist();
    }

    function Database(): Db
      reads userRepo, groupRepo, resetRepo
    {
      Db(userRepo.table, groupRepo.groups, groupRepo.members, resetRepo.tokens)
    }

    /** The tables' constraints, and a membership for every user. */
    ghost predicate Valid()
      reads userRepo, groupRepo, resetRepo
    {
      Consistent(Database())
    }

    /** What the ledger makes of an operation on these accounts. */
    ghost function Entry(before: Db, op: Op): (Ledger.Ledger, Reply) {
      Ledger.Entry(lib, DEFAULT_GROUP in before.groups, Ledger.View(before), op)
    }

    /** Both inserts in one transaction: the second failing takes the first back, but not the id it drew. */
    method CreateMemberTx(uuid: string, email: string, name: string, hash: Hash) returns (r: Reply)
      modifies userRepo, groupRepo
      ensures (Database(), r) == CreateMember(old(Database()), uuid, email, name, hash)
      ensures r.Done? ==> ByUuid(userRepo.table, uuid).Some?
      ensures userRepo.table.nextId == old(userRepo.table.nextId) + 1
      ensures r.Refused? ==> userRepo.table.rows == old(userRepo.table.rows) && groupRepo.members == old(groupRepo.members)
    {
      var before := userRepo.table;
      var id;
      id, r := userRepo.Create(uuid, email, name, hash);
      if r.Done? {
        r := groupRepo.AddUserToGroup(id, DEFAULT_GROUP);
        if r.Refused? {
          userRepo.table := before.(nextId := userRepo.table.nextId);
        }
      }
      if r == Refused(UniqueViolation) {
        r := Refused(UserAlreadyExists);
      }
    }

    /** The tokens of a user, with the groups the table has for it. */
    method IssuePair(id: int, d: Draws) returns (pair: Pair)
      requires Valid() && id in userRepo.table.rows
      ensures pair == PairFor(jwt, userRepo.table.rows[id], d) && GoodFor(jwt, userRepo.table.rows[id], d, pair)
    {
      var u := userRepo.table.rows[id];
      var names := groupRepo.GetGroupNamesByUserID(id);
      OnlyDefault(names, groupRepo.members, id);
      var sub := Jwt.Subject(u.uuid, u.email, USER_ROLE, Some(names));
      pair := Pair(Jwt.GenerateAccess(jwt, sub, d.accessId, d.accessAt), Jwt.GenerateRefresh(jwt, sub, d.refreshId, d.refreshAt));
      PairIsGood(jwt, u, d);
    }

    method Register(email: string, name: string, password: string, uuid: string, d: Draws)
      returns (r: Reply, pair: Option<Pair>)
      requires Valid()
      modifies userRepo, groupRepo
      ensures Valid() && Database() == Apply(lib, old(Database()), Op.Register(email, name, password, uuid)).0
      ensures (Ledger.View(Database()), r) == Entry(old(Database()), Op.Register(email, name, password, uuid))
      ensures pair.Some? <==> r.Done?
      ensures r.Done? ==> var id := ByUuid(userRepo.table, uuid);
                id.Some? && pair == Some(PairFor(jwt, userRepo.table.rows[id.value], d)) &&
                GoodFor(jwt, userRepo.table.rows[id.value], d, pair.value)
    {
      ghost var before := Database();
      pair := None;
      if !(ValidEmail(lib, email) && ValidName(name) && ValidPassword(password)) {
        r := Refused(ValidationFailed);
      } else if !Hashable(password) {
        r := Refused(PasswordTooLong);
      } else {
        r := CreateMemberTx(uuid, Normalize(email), name, Hash(password));
      }
      Entered(lib, before, Op.Register(email, name, password, uuid), Database(), r);
      if r.Done? {
        pair := IssueTo(uuid, d);
      }
    }

    method IssueTo(uuid: string, d: Draws) returns (pair: Option<Pair>)
      requires Valid() && ByUuid(userRepo.table, uuid).Some?
      ensures var u := userRepo.table.rows[ByUuid(userRepo.table, uuid).value];
              pair == Some(PairFor(jwt, u, d)) && GoodFor(jwt, u, d, pair.value)
    {
      var found := userRepo.Get(uuid);
      var issued := IssuePair(found.value, d);
      pair := Some(issued);
    }

    /** Who gets in, told by the ledger alone, and with which tokens. */
    method Login(email: string, password: string, d: Draws) returns (s: Session, pair: Option<Pair>)
      requires Valid()
      ensures s == Credentials.Login(lib, Database(), email, password)
      ensures s.LoggedIn? <==>
                Ledger.GoodEmail(lib, email) && password != "" &&
                Ledger.Opens(Ledger.View(Database()), Normalize(email), Ledger.ReadAs(lib, password))
      ensures pair.Some? <==> s.LoggedIn?
      ensures s.LoggedIn? ==>
                var u := userRepo.table.rows[s.id];
                && Active(userRepo.table, s.id) && u.email == Normalize(email)
                && pair == Some(PairFor(jwt, u, d)) && GoodFor(jwt, u, d, pair.value)
    {
      Ledger.HashableFits(lib, password);
      Ledger.LookedByEmail(userRepo.table, Normalize(email));
      if !ValidEmail(lib, email) || password == "" {
        return Denied(ValidationFailed), None;
      }
      var found := userRepo.GetByEmail(Normalize(email));
      if found == None {
        return Denied(InvalidCredentials), None;
      }
      if !Compare(Seen(lib, password), userRepo.table.rows[found.value].hash) {
        return Denied(InvalidCredentials), None;
      }
      var issued := IssuePair(found.value, d);
      return LoggedIn(found.value), Some(issued);
    }

    method UpdateMe(uuid: string, email: Option<string>, name: Option<string>) returns (r: Reply)
      requires Valid()
      modifies userRepo
      ensures Valid() && Database() == Apply(lib, old(Database()), Op.UpdateMe(uuid, email, name)).0
      ensures (Ledger.View(Database()), r) == Entry(old(Database()), Op.UpdateMe(uuid, email, name))
    {
      ghost var before := Database();
      if !ValidUpdate(lib, uuid, email, name) {
        r := Refused(ValidationFailed);
      } else {
        var normalized := email;
        if normalized.Some? {
          normalized := Some(Normalize(normalized.value));
        }
        r := userRepo.Update(uuid, normalized, name);
      }
      Entered(lib, before, Op.UpdateMe(uuid, email, name), Database(), r);
    }

    /** The token the change was asked with is revoked once the new password is stored. */
    method ChangePassword(uuid: string, current: string, next: string, jti: string, expiresAt: int) returns (r: Reply)
      requires Valid()
      modifies userRepo, tokenRepo, blacklist
      ensures Valid() && Database() == Apply(lib, old(Database()), Op.ChangePassword(uuid, current, next)).0
      ensures (Ledger.View(Database()), r) == Entry(old(Database()), Op.ChangePassword(uuid, current, next))
      ensures blacklist.m == if r.Done? && jti != "" then Blacklist.AfterAdd(old(blacklist.m), jti, expiresAt) else old(blacklist.m)
      ensures if r.Done? && jti != "" then
                && jti in tokenRepo.rows && tokenRepo.rows - {jti} == old(tokenRepo.rows) - {jti}
                && tokenRepo.rows[jti] == if jti in old(tokenRepo.rows) then old(tokenRepo.rows)[jti] else expiresAt
              else tokenRepo.rows == old(tokenRepo.rows)
    {
      ghost var before := Database();
      if uuid == NIL_UUID || current == "" || !ValidPassword(next) {
        r := Refused(ValidationFailed);
      } else {
        var found := userRepo.Get(uuid);
        if found == None {
          r := Refused(UserNotFound);
        } else if !Compare(Seen(lib, current), userRepo.table.rows[found.value].hash) {
          r := Refused(InvalidCredentials);
        } else if !Hashable(next) {
          r := Refused(PasswordTooLong);
        } else {
          r := userRepo.UpdatePassword(uuid, Hash(next));
        }
      }
      Entered(lib, before, Op.ChangePassword(uuid, current, next), Database(), r);
      if r.Done? && jti != "" {
        tokenRepo.Add(jti, expiresAt);
        blacklist.Add(jti, expiresAt);
      }
    }

    /** Every later lookup up to the expiry finds the token revoked; the database's row outlives the process. */
    method Logout(jti: string, expiresAt: int)
      modifies tokenRepo, blacklist
      ensures Database() == old(Database())
      ensures blacklist.m == Blacklist.AfterAdd(old(blacklist.m), jti, expiresAt)
      ensures forall now :: Blacklist.Has(blacklist.m, jti, now) <==> now <= expiresAt
      ensures jti in tokenRepo.rows && tokenRepo.rows - {jti} == old(tokenRepo.rows) - {jti}
      ensures tokenRepo.rows[jti] == if jti in old(tokenRepo.rows) then old(tokenRepo.rows)[jti] else expiresAt
    {
      tokenRepo.Add(jti, expiresAt);
      blacklist.Add(jti, expiresAt);
    }

    method RequestPasswordReset(email: string, token: string, now: int) returns (r: Reply, given: string)
      requires Valid()
      modifies resetRepo
      ensures Valid() && Database() == Apply(lib, old(Database()), Op.RequestPasswordReset(email, token, now)).0
      ensures (Ledger.View(Database()), r) == Entry(old(Database()), Op.RequestPasswordReset(email, token, now))
      ensures given == if Database() != old(Database()) then token else ""
    {
      ghost var before := Database();
      given := "";
      if !ValidEmail(lib, email) {
        r := Refused(ValidationFailed);
      } else {
        var found := userRepo.GetByEmail(Normalize(email));
        if found == None {
          r := Done;
        } else {
          r := resetRepo.Create(token, found.value, now + RESET_TTL);
          if r.Done? {
            given := token;
          }
        }
      }
      Entered(lib, before, Op.RequestPasswordReset(email, token, now), Database(), r);
    }

    method ConfirmPasswordReset(token: string, password: string, now: int) returns (r: Reply)
      requires Valid()
      modifies userRepo, resetRepo
      ensures Valid() && Database() == Apply(lib, old(Database()), Op.ConfirmPasswordReset(token, password, now)).0
      ensures (Ledger.View(Database()), r) == Entry(old(Database()), Op.ConfirmPasswordReset(token, password, now))
    {
      ghost var before := Database();
      if token == "" || !ValidPassword(password) {
        r := Refused(ValidationFailed);
      } else {
        var found := resetRepo.Get(token);
        if found == None {
          r := Refused(TokenNotFound);
        } else if found.value.used {
          r := Refused(TokenAlreadyUsed);
        } else if now > found.value.expiresAt {
          r := Refused(TokenExpired);
        } else if !Hashable(password) {
          r := Refused(PasswordTooLong);
        } else {
          r := userRepo.UpdatePasswordByID(found.value.userId, Hash(password));
          if r.Done? {
            resetRepo.MarkUsed(token);
          }
        }
      }
      Entered(lib, before, Op.ConfirmPasswordReset(token, password, now), Database(), r);
    }
  }
}
