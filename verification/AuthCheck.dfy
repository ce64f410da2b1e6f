/**
  The auth middleware's two checks, validation and then the blacklist, each with its own clock
  readings, against a completed logout of the same token.
 */
module AuthCheck {
  import Jwt
  import Revocation

  /** The request reaches the handler: the token validates and the blacklist lookup says no. */
  predicate Passes(s: Jwt.Service, tok: Jwt.Token, parsedAt: int, checkedAt: int, lookup: Revocation.Proc) {
    Jwt.Validate(s, tok, parsedAt, checkedAt).Ok? && lookup.Answered? && !lookup.revoked
  }

  /**
    Logout adds the token's id with the token's own expiry, and so does every other revocation of
    it. A check whose lookup starts after such an Add completed passes exactly when validation read
    the clock up to the expiry and the lookup decided after it; whatever cleanups and other lookups
    ran in between.
   */
  lemma LogoutCoverage(
    s: Jwt.Service, sub: Jwt.Subject, tokenType: string, ttl: int, id: string, issued: int,
    r: Revocation.State, p: nat, parsedAt: int, checkedAt: int)
    requires issued <= parsedAt <= checkedAt
    requires var exp := Jwt.Generate(s, sub, tokenType, ttl, id, issued).claims.expiresAt;
             Revocation.Reachable(id, {exp}, r)
    requires p < |r.procs| && r.procs[p].Answered? && r.procs[p].jti == id && r.procs[p].due.Some?
    ensures var tok := Jwt.Generate(s, sub, tokenType, ttl, id, issued);
            var exp := tok.claims.expiresAt;
            Passes(s, tok, parsedAt, checkedAt, r.procs[p]) <==>
              parsedAt < exp && checkedAt <= exp < r.procs[p].at
  {
    var tok := Jwt.Generate(s, sub, tokenType, ttl, id, issued);
    Jwt.WindowRoundTrip(s, sub, tokenType, ttl, id, issued, parsedAt, checkedAt);
    Revocation.OneExpiryIsFaithful(id, tok.claims.expiresAt, r, p);
  }
}
