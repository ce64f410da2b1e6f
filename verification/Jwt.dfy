/**
  Tokens and their validity window. Signatures are ideal: a token parses under a key exactly when it
  was signed with it. Times are nanoseconds since the epoch; dates in a token are whole seconds.
 */
module Jwt {
  import opened Common

  const SECOND := 1_000_000_000
  const DEFAULT_ACCESS_TTL := 15 * 60 * SECOND
  const DEFAULT_REFRESH_TTL := 7 * 24 * 3600 * SECOND

  datatype Subject = Subject(userUUID: string, email: string, role: string, groups: Option<seq<string>>)

  datatype Claims = Claims(
    userUUID: string, email: string, role: string, groups: seq<string>, tokenType: string,
    id: string, issuedAt: int, notBefore: int, expiresAt: int)

  /** A token signed by HMAC with some key, or anything else a client may send. */
  datatype Token = Signed(claims: Claims, key: string) | Malformed

  datatype Error = ParseFailed | Expired | NotYetValid | IssuedInFuture | NotRefresh
  datatype Result = Ok(claims: Claims) | Err(error: Error)

  datatype Service = Service(secretKey: string, accessTTL: int, refreshTTL: int)

  /** Configured lifetimes are used only when positive. */
  function New(secretKey: string, accessTTL: int, refreshTTL: int): Service {
    Service(
      secretKey,
      if accessTTL > 0 then accessTTL else DEFAULT_ACCESS_TTL,
      if refreshTTL > 0 then refreshTTL else DEFAULT_REFRESH_TTL)
  }

  /** NewNumericDate: down to the whole second. */
  function NumericDate(t: int): int {
    t - t % SECOND
  }

  function Generate(s: Service, sub: Subject, tokenType: string, ttl: int, id: string, now: int): Token {
    Signed(
      Claims(
        sub.userUUID, sub.email, sub.role,
        match sub.groups case None => [] case Some(g) => g,
        tokenType, id, NumericDate(now), NumericDate(now), NumericDate(now + ttl)),
      s.secretKey)
  }

  function GenerateAccess(s: Service, sub: Subject, id: string, now: int): Token {
    Generate(s, sub, "access", s.accessTTL, id, now)
  }

  function GenerateRefresh(s: Service, sub: Subject, id: string, now: int): Token {
    Generate(s, sub, "refresh", s.refreshTTL, id, now)
  }

  /** The library's check at its own clock reading: sections 4.1.4 and 4.1.5 of RFC 7519. */
  predicate Parses(s: Service, tok: Token, at: int) {
    tok.Signed? && tok.key == s.secretKey && at < tok.claims.expiresAt && tok.claims.notBefore <= at
  }

  /** The library parses at parsedAt; the service then reads the clock again at checkedAt. */
  function Validate(s: Service, tok: Token, parsedAt: int, checkedAt: int): Result {
    if !Parses(s, tok, parsedAt) then Err(ParseFailed)
    else if tok.claims.expiresAt < checkedAt then Err(Expired)
    else if tok.claims.notBefore > checkedAt then Err(NotYetValid)
    else if tok.claims.issuedAt > checkedAt then Err(IssuedInFuture)
    else Ok(tok.claims)
  }

  function ValidateRefresh(s: Service, tok: Token, parsedAt: int, checkedAt: int): Result {
    match Validate(s, tok, parsedAt, checkedAt)
    case Err(e) => Err(e)
    case Ok(c) => if c.tokenType != "refresh" then Err(NotRefresh) else Ok(c)
  }

  /** The claims are the subject's, with missing groups empty. */
  predicate Carries(c: Claims, sub: Subject, tokenType: string, id: string) {
    && c.userUUID == sub.userUUID && c.email == sub.email && c.role == sub.role
    && c.groups == (if sub.groups.Some? then sub.groups.value else [])
    && c.tokenType == tokenType && c.id == id
  }

  /**
    Whatever a client sends: a token validates exactly if it is claims signed with this service's key, the parse reads the
    clock within their window, and so does the second reading, the expiry itself included; the answer is those claims.
   */
  lemma ValidatesExactly(s: Service, tok: Token, t1: int, t2: int, c: Claims)
    ensures Validate(s, tok, t1, t2) == Ok(c) <==>
              && tok == Signed(c, s.secretKey)
              && c.notBefore <= t1 < c.expiresAt
              && c.notBefore <= t2 <= c.expiresAt
              && c.issuedAt <= t2
  {
  }

  /** Likewise for the refresh check, which takes refresh tokens only. */
  lemma RefreshesExactly(s: Service, tok: Token, t1: int, t2: int, c: Claims)
    ensures ValidateRefresh(s, tok, t1, t2) == Ok(c) <==>
              && tok == Signed(c, s.secretKey) && c.tokenType == "refresh"
              && c.notBefore <= t1 < c.expiresAt
              && c.notBefore <= t2 <= c.expiresAt
              && c.issuedAt <= t2
  {
    ValidatesExactly(s, tok, t1, t2, c);
  }

  lemma NumericDateBounds(t: int)
    ensures t - SECOND < NumericDate(t) <= t
  {
  }

  /**
    From its issue on, a token validates under its key exactly while the parse comes before the
    truncated expiry and the second clock reading not after it, and then yields what was put in;
    its lifetime is at most ttl and longer than ttl minus one second.
   */
  lemma WindowRoundTrip(s: Service, sub: Subject, tokenType: string, ttl: int, id: string, now: int, t1: int, t2: int)
    requires now <= t1 <= t2
    ensures var tok := Generate(s, sub, tokenType, ttl, id, now);
            var exp := tok.claims.expiresAt;
            && (Validate(s, tok, t1, t2).Ok? <==> t1 < exp && t2 <= exp)
            && (Validate(s, tok, t1, t2).Ok? ==> Carries(Validate(s, tok, t1, t2).claims, sub, tokenType, id))
            && ttl - 1_000_000_000 < exp - now <= ttl
            && exp % 1_000_000_000 == 0
            && now - 1_000_000_000 < tok.claims.issuedAt == tok.claims.notBefore <= now
  {
    NumericDateBounds(now);
    NumericDateBounds(now + ttl);
    WholeSeconds(now + ttl);
  }

  lemma WholeSeconds(t: int)
    ensures NumericDate(t) % SECOND == 0
  {
    assert t == SECOND * (t / SECOND) + t % SECOND;
    assert NumericDate(t) == SECOND * (t / SECOND);
    MultipleOfSecond(t / SECOND);
  }

  lemma MultipleOfSecond(q: int)
    ensures (SECOND * q) % SECOND == 0
  {
  }

  /** No other key's service accepts a token at any time. */
  lemma OtherKeyRejects(s: Service, other: Service, sub: Subject, tokenType: string, ttl: int, id: string, now: int, t1: int, t2: int)
    requires other.secretKey != s.secretKey
    ensures Validate(other, Generate(s, sub, tokenType, ttl, id, now), t1, t2) == Err(ParseFailed)
  {
  }

  /** Of a pair issued by a service, exactly the refresh token can pass the refresh check, and it does while valid. */
  lemma OnlyRefreshRefreshes(s: Service, sub: Subject, a: string, b: string, now: int, later: int, t1: int, t2: int)
    requires now <= later <= t1 <= t2
    ensures ValidateRefresh(s, GenerateAccess(s, sub, a, now), t1, t2).Err?
    ensures var tok := GenerateRefresh(s, sub, b, later);
            && (ValidateRefresh(s, tok, t1, t2).Ok? <==> t1 < tok.claims.expiresAt && t2 <= tok.claims.expiresAt)
            && (ValidateRefresh(s, tok, t1, t2).Ok? ==> Carries(ValidateRefresh(s, tok, t1, t2).claims, sub, "refresh", b))
  {
    assert "access" != "refresh";
    WindowRoundTrip(s, sub, "access", s.accessTTL, a, now, t1, t2);
    WindowRoundTrip(s, sub, "refresh", s.refreshTTL, b, later, t1, t2);
  }

  /** A fresh token of at least one second's lifetime is valid at its issue. */
  lemma ValidAtIssue(s: Service, sub: Subject, tokenType: string, ttl: int, id: string, now: int)
    requires ttl >= SECOND
    ensures Validate(s, Generate(s, sub, tokenType, ttl, id, now), now, now).Ok?
  {
    WindowRoundTrip(s, sub, tokenType, ttl, id, now, now, now);
  }

  /** Tokens are good for the configured time where it is positive, else access tokens for 15 minutes and refresh tokens for 7 days. */
  lemma ConfiguredLifetimes(key: string, access: int, refresh: int, sub: Subject, a: string, b: string, now: int, t: int)
    requires now <= t
    ensures var s := New(key, access, refresh);
            && (access > 0 ==> (Validate(s, GenerateAccess(s, sub, a, now), t, t).Ok? <==> t < NumericDate(now + access)))
            && (access <= 0 ==>
                  (Validate(s, GenerateAccess(s, sub, a, now), t, t).Ok? <==> t < NumericDate(now + 900_000_000_000)))
            && (refresh > 0 ==> (Validate(s, GenerateRefresh(s, sub, b, now), t, t).Ok? <==> t < NumericDate(now + refresh)))
            && (refresh <= 0 ==>
                  (Validate(s, GenerateRefresh(s, sub, b, now), t, t).Ok? <==> t < NumericDate(now + 604_800_000_000_000)))
  {
    var s := New(key, access, refresh);
    WindowRoundTrip(s, sub, "access", s.accessTTL, a, now, t, t);
    WindowRoundTrip(s, sub, "refresh", s.refreshTTL, b, now, t, t);
  }
}
