/**
  Where revocations come from: a token is issued with a fresh id, the auth middleware puts the id and
  expiry of a validated token into the request's context, and logout and password change revoke what
  the context holds. Lookups and cleanups of the blacklist interleave as in Revocation.
 */
module Sessions {
  import AuthCheck
  import Jwt
  import Revocation

  /** What a token was issued from, under its id. */
  datatype Ticket = Ticket(sub: Jwt.Subject, tokenType: string, ttl: int, at: int)

  /** token_jti and token_expires_at of an authenticated request. */
  datatype Context = Context(jti: string, expiresAt: int)

  datatype State = State(r: Revocation.State, issued: map<string, Ticket>, contexts: seq<Context>)

  datatype Label =
    | Issue(sub: Jwt.Subject, tokenType: string, ttl: int, id: string)
    | Authenticate(token: Jwt.Token, parsedAt: int, checkedAt: int)
    | Revoke(n: nat)
    | Other(step: Revocation.Label)

  function TokenOf(service: Jwt.Service, id: string, t: Ticket): Jwt.Token {
    Jwt.Generate(service, t.sub, t.tokenType, t.ttl, id, t.at)
  }

  /** A signature cannot be forged: of the tokens that validate, a request can only show issued ones. */
  predicate Shown(service: Jwt.Service, s: State, token: Jwt.Token) {
    token.Signed? && token.claims.id in s.issued && token == TokenOf(service, token.claims.id, s.issued[token.claims.id])
  }

  /** A label that is not enabled has no effect; an id is fresh when it is drawn. */
  function Next(service: Jwt.Service, s: State, l: Label): State {
    match l
    case Issue(sub, tokenType, ttl, id) =>
      if id in s.issued then s else s.(issued := s.issued[id := Ticket(sub, tokenType, ttl, s.r.now)])
    case Authenticate(token, parsedAt, checkedAt) =>
      if Shown(service, s, token) && Jwt.Validate(service, token, parsedAt, checkedAt).Ok? then
        var c := Jwt.Validate(service, token, parsedAt, checkedAt).claims;
        s.(contexts := s.contexts + [Context(c.id, c.expiresAt)])
      else s
    case Revoke(n) =>
      if n < |s.contexts|
      then s.(r := Revocation.Next(s.r, Revocation.Add(s.contexts[n].jti, s.contexts[n].expiresAt)))
      else s
    case Other(step) =>
      if !step.Add? && Revocation.Enabled(s.r, step) then s.(r := Revocation.Next(s.r, step)) else s
  }

  function Init(start: int): State {
    State(Revocation.Init(start), map[], [])
  }

  function Run(service: Jwt.Service, s: State, ls: seq<Label>): State {
    if ls == [] then s else Next(service, Run(service, s, ls[..|ls| - 1]), ls[|ls| - 1])
  }

  function ExpiryOf(service: Jwt.Service, id: string, t: Ticket): int {
    TokenOf(service, id, t).claims.expiresAt
  }

  /** The expiry is the one that id was issued with, if it was. */
  predicate OwnExpiry(service: Jwt.Service, s: State, id: string, e: int) {
    id in s.issued ==> ExpiryOf(service, id, s.issued[id]) == e
  }

  /** Contexts hold ids with the expiry they were issued with, so the blacklist only sees Adds of those. */
  ghost predicate Inv(service: Jwt.Service, s: State) {
    && (forall c | c in s.contexts :: c.jti in s.issued && OwnExpiry(service, s, c.jti, c.expiresAt))
    && (forall id, e | OwnExpiry(service, s, id, e) :: Revocation.Reachable(id, {e}, s.r))
  }

  lemma RevokeKeeps(service: Jwt.Service, s: State, n: nat)
    requires Inv(service, s) && n < |s.contexts|
    ensures Inv(service, Next(service, s, Revoke(n)))
  {
    var c := s.contexts[n];
    var t := Next(service, s, Revoke(n));
    assert c in s.contexts;
    forall id, e | OwnExpiry(service, t, id, e) ensures Revocation.Reachable(id, {e}, t.r) {
      assert OwnExpiry(service, s, id, e);
      var u := Revocation.ReachableNext(id, {e}, s.r, Revocation.Add(c.jti, c.expiresAt));
    }
  }

  lemma NextKeeps(service: Jwt.Service, s: State, l: Label)
    requires Inv(service, s)
    ensures Inv(service, Next(service, s, l))
  {
    var t := Next(service, s, l);
    if l.Revoke? {
      if l.n < |s.contexts| { RevokeKeeps(service, s, l.n); }
    } else {
      forall c | c in t.contexts ensures c.jti in t.issued && OwnExpiry(service, t, c.jti, c.expiresAt) {
        if c in s.contexts {
          assert OwnExpiry(service, s, c.jti, c.expiresAt);
        }
      }
      forall id, e | OwnExpiry(service, t, id, e) ensures Revocation.Reachable(id, {e}, t.r) {
        assert OwnExpiry(service, s, id, e);
        if l.Other? && !l.step.Add? && Revocation.Enabled(s.r, l.step) {
          var u := Revocation.ReachableNext(id, {e}, s.r, l.step);
        }
      }
    }
  }

  lemma {:induction false} RunKeeps(service: Jwt.Service, start: int, ls: seq<Label>)
    ensures Inv(service, Run(service, Init(start), ls))
  {
    if ls == [] {
      forall id, e | OwnExpiry(service, Init(start), id, e) ensures Revocation.Reachable(id, {e}, Init(start).r) {
        assert Revocation.Path(id, {e}, Revocation.Init(start), [], Init(start).r);
      }
    } else {
      RunKeeps(service, start, ls[..|ls| - 1]);
      NextKeeps(service, Run(service, Init(start), ls[..|ls| - 1]), ls[|ls| - 1]);
    }
  }

  /**
    In every run of the service: once a logout or password change with an issued token has completed, a request with
    that token passes exactly when validation read the clock up to its expiry and the blacklist lookup after it.
   */
  lemma RevokedTokenPassesExactly(
    service: Jwt.Service, start: int, ls: seq<Label>, id: string, p: nat, parsedAt: int, checkedAt: int)
    requires var s := Run(service, Init(start), ls);
             && id in s.issued && s.issued[id].at <= parsedAt <= checkedAt
             && p < |s.r.procs| && s.r.procs[p].Answered? && s.r.procs[p].jti == id && s.r.procs[p].due.Some?
    ensures var s := Run(service, Init(start), ls);
            var exp := ExpiryOf(service, id, s.issued[id]);
            AuthCheck.Passes(service, TokenOf(service, id, s.issued[id]), parsedAt, checkedAt, s.r.procs[p]) <==>
              parsedAt < exp && checkedAt <= exp < s.r.procs[p].at
  {
    RunKeeps(service, start, ls);
    var s := Run(service, Init(start), ls);
    var t := s.issued[id];
    assert OwnExpiry(service, s, id, ExpiryOf(service, id, t));
    AuthCheck.LogoutCoverage(service, t.sub, t.tokenType, t.ttl, id, t.at, s.r, p, parsedAt, checkedAt);
  }

  /** As long as no request has revoked an issued token, one with it passes exactly when validation read the clock up to its expiry. */
  lemma UnrevokedTokenPassesExactly(
    service: Jwt.Service, start: int, ls: seq<Label>, id: string, p: nat, parsedAt: int, checkedAt: int)
    requires var s := Run(service, Init(start), ls);
             && id in s.issued && s.issued[id].at <= parsedAt <= checkedAt && id !in s.r.added
             && p < |s.r.procs| && s.r.procs[p].Answered? && s.r.procs[p].jti == id
    ensures var s := Run(service, Init(start), ls);
            var exp := ExpiryOf(service, id, s.issued[id]);
            AuthCheck.Passes(service, TokenOf(service, id, s.issued[id]), parsedAt, checkedAt, s.r.procs[p]) <==>
              parsedAt < exp && checkedAt <= exp
  {
    RunKeeps(service, start, ls);
    var s := Run(service, Init(start), ls);
    var t := s.issued[id];
    assert OwnExpiry(service, s, id, ExpiryOf(service, id, t));
    Revocation.OneExpiryIsFaithful(id, ExpiryOf(service, id, t), s.r, p);
    Jwt.WindowRoundTrip(service, t.sub, t.tokenType, t.ttl, id, t.at, parsedAt, checkedAt);
  }

  /** In every run, no interleaving of lookups and cleanups loses a revocation: every lookup after one is right at its own clock reading. */
  lemma RevocationsLast(service: Jwt.Service, start: int, ls: seq<Label>, id: string, p: nat)
    requires var s := Run(service, Init(start), ls);
             id in s.issued && p < |s.r.procs| && s.r.procs[p].Answered? && s.r.procs[p].jti == id
    ensures var s := Run(service, Init(start), ls);
            Revocation.Faithful(s.r.procs[p]) &&
            (s.r.procs[p].due.Some? ==> s.r.procs[p].due.value == ExpiryOf(service, id, s.issued[id]))
  {
    RunKeeps(service, start, ls);
    var s := Run(service, Init(start), ls);
    assert OwnExpiry(service, s, id, ExpiryOf(service, id, s.issued[id]));
    Revocation.OneExpiryIsFaithful(id, ExpiryOf(service, id, s.issued[id]), s.r, p);
  }

  // ---- In terms of the run alone ----

  /** During the run some request revoked the id, with a context that a validated token of that id had filled. */
  predicate RevokedIn(service: Jwt.Service, start: int, ls: seq<Label>, id: string) {
    ls != [] &&
    var init, last := ls[..|ls| - 1], ls[|ls| - 1];
    var contexts := Run(service, Init(start), init).contexts;
    RevokedIn(service, start, init, id) || (last.Revoke? && last.n < |contexts| && contexts[last.n].jti == id)
  }

  lemma RunSnoc(service: Jwt.Service, s: State, ls: seq<Label>, l: Label)
    ensures Run(service, s, ls + [l]) == Next(service, Run(service, s, ls), l)
  {
    assert (ls + [l])[..|ls|] == ls;
  }

  /** Only revoking what a context holds adds an id. */
  lemma NextAdds(service: Jwt.Service, s: State, l: Label, id: string)
    ensures id in Next(service, s, l).r.added <==>
              id in s.r.added || (l.Revoke? && l.n < |s.contexts| && s.contexts[l.n].jti == id)
  {
  }

  lemma NextLookup(service: Jwt.Service, s: State, l: Label, p: nat)
    requires p < |s.r.procs| && !s.r.procs[p].Cleaning?
    ensures p < |Next(service, s, l).r.procs| && Revocation.SameLookup(s.r.procs[p], Next(service, s, l).r.procs[p])
  {
  }

  lemma {:induction false} RevokedIsAdded(service: Jwt.Service, start: int, ls: seq<Label>, id: string)
    ensures RevokedIn(service, start, ls, id) <==> id in Run(service, Init(start), ls).r.added
  {
    if ls != [] {
      RevokedIsAdded(service, start, ls[..|ls| - 1], id);
      NextAdds(service, Run(service, Init(start), ls[..|ls| - 1]), ls[|ls| - 1], id);
    }
  }

  lemma {:induction false} LookupKept(service: Jwt.Service, start: int, before: seq<Label>, id: string, after: seq<Label>)
    ensures var r := Run(service, Init(start), before).r;
            var t := Run(service, Init(start), before + [Other(Revocation.StartHas(id))] + after);
            && |r.procs| < |t.r.procs|
            && Revocation.SameLookup(Revocation.Checking(id, Revocation.DueNow(r, id)), t.r.procs[|r.procs|])
  {
    var first := before + [Other(Revocation.StartHas(id))];
    if after == [] {
      assert first + after == first;
      RunSnoc(service, Init(start), before, Other(Revocation.StartHas(id)));
    } else {
      var init, last := after[..|after| - 1], after[|after| - 1];
      LookupKept(service, start, before, id, init);
      assert first + after == first + init + [last];
      RunSnoc(service, Init(start), first + init, last);
      NextLookup(service, Run(service, Init(start), first + init), last, |Run(service, Init(start), before).r.procs|);
    }
  }

  /**
    In every run of issue, authentication, logout and blacklist steps: the request whose lookup starts after `before` passes,
    if the token was revoked before, exactly when validation read the clock up to its expiry and the lookup after it; and if
    it was not revoked by the end, exactly when validation read the clock up to its expiry.
   */
  lemma RequestsDecided(
    service: Jwt.Service, start: int, before: seq<Label>, id: string, after: seq<Label>, parsedAt: int, checkedAt: int)
    requires var t := Run(service, Init(start), before + [Other(Revocation.StartHas(id))] + after);
             id in t.issued && t.issued[id].at <= parsedAt <= checkedAt
    ensures var ls := before + [Other(Revocation.StartHas(id))] + after;
            var t, p := Run(service, Init(start), ls), |Run(service, Init(start), before).r.procs|;
            var exp := ExpiryOf(service, id, t.issued[id]);
            && p < |t.r.procs|
            && (t.r.procs[p].Answered? ==>
                  var passes := AuthCheck.Passes(service, TokenOf(service, id, t.issued[id]), parsedAt, checkedAt, t.r.procs[p]);
                  && (RevokedIn(service, start, before, id) ==>
                        (passes <==> parsedAt < exp && checkedAt <= exp < t.r.procs[p].at))
                  && (!RevokedIn(service, start, ls, id) ==> (passes <==> parsedAt < exp && checkedAt <= exp)))
  {
    var ls := before + [Other(Revocation.StartHas(id))] + after;
    var t, p := Run(service, Init(start), ls), |Run(service, Init(start), before).r.procs|;
    LookupKept(service, start, before, id, after);
    RevokedIsAdded(service, start, before, id);
    RevokedIsAdded(service, start, ls, id);
    if t.r.procs[p].Answered? {
      if RevokedIn(service, start, before, id) {
        RevokedTokenPassesExactly(service, start, ls, id, p, parsedAt, checkedAt);
      }
      if !RevokedIn(service, start, ls, id) {
        UnrevokedTokenPassesExactly(service, start, ls, id, p, parsedAt, checkedAt);
      }
    }
  }

  /** A fresh id's token is issued with it; a request that shows it within its lifetime has its id and expiry to revoke. */
  lemma AuthenticatedCanRevoke(
    service: Jwt.Service, start: int, ls: seq<Label>, sub: Jwt.Subject, tokenType: string, ttl: int, id: string,
    parsedAt: int, checkedAt: int)
    requires id !in Run(service, Init(start), ls).issued
    requires Run(service, Init(start), ls).r.now <= parsedAt <= checkedAt
    requires var exp := Jwt.NumericDate(Run(service, Init(start), ls).r.now + ttl); parsedAt < exp && checkedAt <= exp
    ensures var s := Run(service, Init(start), ls);
            var more := ls + [Issue(sub, tokenType, ttl, id)]
              + [Authenticate(Jwt.Generate(service, sub, tokenType, ttl, id, s.r.now), parsedAt, checkedAt)] + [Revoke(|s.contexts|)];
            RevokedIn(service, start, more, id)
  {
    var s := Run(service, Init(start), ls);
    var issue := Issue(sub, tokenType, ttl, id);
    var show := Authenticate(Jwt.Generate(service, sub, tokenType, ttl, id, s.r.now), parsedAt, checkedAt);
    RunSnoc(service, Init(start), ls, issue);
    RunSnoc(service, Init(start), ls + [issue], show);
    ShownContext(service, s, sub, tokenType, ttl, id, parsedAt, checkedAt);
    var two := ls + [issue] + [show];
    assert (two + [Revoke(|s.contexts|)])[..|two|] == two;
  }

  lemma ShownContext(
    service: Jwt.Service, s: State, sub: Jwt.Subject, tokenType: string, ttl: int, id: string, parsedAt: int, checkedAt: int)
    requires id !in s.issued && s.r.now <= parsedAt <= checkedAt
    requires var exp := Jwt.NumericDate(s.r.now + ttl); parsedAt < exp && checkedAt <= exp
    ensures var token := Jwt.Generate(service, sub, tokenType, ttl, id, s.r.now);
            Next(service, Next(service, s, Issue(sub, tokenType, ttl, id)), Authenticate(token, parsedAt, checkedAt)).contexts ==
              s.contexts + [Context(id, Jwt.NumericDate(s.r.now + ttl))]
  {
    Jwt.WindowRoundTrip(service, sub, tokenType, ttl, id, s.r.now, parsedAt, checkedAt);
  }
}
