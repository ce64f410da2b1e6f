/**
  The revoked-token blacklist: a map from token id to expiry whose lookups purge lazily and whose
  periodic cleanup deletes what has expired. Neither changes any later answer.
 */
module Blacklist {
  import opened Common

  type Revoked = map<string, int>

  function AfterAdd(m: Revoked, jti: string, expiresAt: int): Revoked {
    m[jti := expiresAt]
  }

  predicate Has(m: Revoked, jti: string, now: int) {
    jti in m && now <= m[jti]
  }

  /** A lookup that finds an expired entry deletes it. */
  function AfterHas(m: Revoked, jti: string, now: int): Revoked {
    if jti in m && now > m[jti] then m - {jti} else m
  }

  function AfterCleanup(m: Revoked, now: int): Revoked {
    map j | j in m && now <= m[j] :: m[j]
  }

  class Blacklist {
    var m: Revoked

    constructor ()
      ensures m == map[]
    {
      m := map[];
    }

    method Add(jti: string, expiresAt: int)
      modifies this
      ensures m == AfterAdd(old(m), jti, expiresAt)
    {
      m := m[jti := expiresAt];
    }

    method Lookup(jti: string, now: int) returns (revoked: bool)
      modifies this
      ensures revoked == Has(old(m), jti, now)
      ensures m == AfterHas(old(m), jti, now)
    {
      if jti !in m {
        return false;
      }
      if now > m[jti] {
        m := m - {jti};
        return false;
      }
      return true;
    }

    /** Visits every key once, in any order, deleting the expired ones as it goes. */
    method Cleanup(now: int)
      modifies this
      ensures m == AfterCleanup(old(m), now)
    {
      var rest := m.Keys;
      while rest != {}
        invariant rest <= m.Keys <= old(m).Keys
        invariant forall j | j in old(m) :: j in m <==> j in rest || now <= old(m)[j]
        invariant forall j | j in m :: m[j] == old(m)[j]
        decreases |rest|
      {
        var key :| key in rest;
        if now > m[key] {
          m := m - {key};
        }
        rest := rest - {key};
      }
    }
  }

  // ---- Sequential runs ----

  datatype Call = Add(jti: string, expiresAt: int) | Query(jti: string) | Cleanup

  /** A call and the clock when it happens. */
  datatype Timed = Timed(at: int, call: Call)

  function Apply(m: Revoked, c: Timed): Revoked {
    match c.call
    case Add(jti, e) => AfterAdd(m, jti, e)
    case Query(jti) => AfterHas(m, jti, c.at)
    case Cleanup => AfterCleanup(m, c.at)
  }

  function Run(m: Revoked, cs: seq<Timed>): Revoked {
    if cs == [] then m else Apply(Run(m, cs[..|cs| - 1]), cs[|cs| - 1])
  }

  predicate Monotone(cs: seq<Timed>) {
    forall i, j | 0 <= i < j < |cs| :: cs[i].at <= cs[j].at
  }

  /** The expiry of the last Add for the token in the history, if there was one. */
  function LastAdd(cs: seq<Timed>, jti: string): Option<int> {
    if cs == [] then None
    else
      var last := cs[|cs| - 1];
      if last.call.Add? && last.call.jti == jti then Some(last.call.expiresAt)
      else LastAdd(cs[..|cs| - 1], jti)
  }

  /** The map holds the last Add's expiry, or that expiry has passed. */
  lemma {:induction false} HoldsLastAdd(cs: seq<Timed>, jti: string, now: int)
    requires Monotone(cs) && forall i | 0 <= i < |cs| :: cs[i].at <= now
    ensures var m, e := Run(map[], cs), LastAdd(cs, jti);
            && (jti in m ==> e == Some(m[jti]))
            && (jti !in m && e.Some? ==> e.value < now)
  {
    if cs != [] {
      var init, last := cs[..|cs| - 1], cs[|cs| - 1];
      HoldsLastAdd(init, jti, last.at);
    }
  }

  /** Under a monotone clock a lookup answers true exactly when the last Add has not expired. */
  lemma HasIsHistory(cs: seq<Timed>, jti: string, now: int)
    requires Monotone(cs) && forall i | 0 <= i < |cs| :: cs[i].at <= now
    ensures Has(Run(map[], cs), jti, now) <==>
            LastAdd(cs, jti).Some? && now <= LastAdd(cs, jti).value
  {
    HoldsLastAdd(cs, jti, now);
  }

  function OnlyAdds(cs: seq<Timed>): seq<Timed> {
    if cs == [] then []
    else OnlyAdds(cs[..|cs| - 1]) + if cs[|cs| - 1].call.Add? then [cs[|cs| - 1]] else []
  }

  lemma {:induction false} LastAddOfAdds(cs: seq<Timed>, jti: string)
    ensures LastAdd(OnlyAdds(cs), jti) == LastAdd(cs, jti)
    ensures forall c | c in OnlyAdds(cs) :: c in cs
    ensures Monotone(cs) ==> Monotone(OnlyAdds(cs))
  {
    if cs != [] {
      var init, last := cs[..|cs| - 1], cs[|cs| - 1];
      LastAddOfAdds(init, jti);
      assert cs == init + [last];
      if last.call.Add? {
        assert OnlyAdds(cs)[..|OnlyAdds(cs)| - 1] == OnlyAdds(init);
        assert forall i | 0 <= i < |OnlyAdds(init)| :: OnlyAdds(init)[i] in init;
      } else {
        assert OnlyAdds(cs) == OnlyAdds(init);
      }
    }
  }

  /** Lookups and cleanups can be left out of a history without changing any later answer. */
  lemma PurgesAreInvisible(cs: seq<Timed>, jti: string, now: int)
    requires Monotone(cs) && forall i | 0 <= i < |cs| :: cs[i].at <= now
    ensures Has(Run(map[], cs), jti, now) == Has(Run(map[], OnlyAdds(cs)), jti, now)
  {
    HasIsHistory(cs, jti, now);
    LastAddOfAdds(cs, jti);
    assert forall i | 0 <= i < |OnlyAdds(cs)| :: OnlyAdds(cs)[i] in OnlyAdds(cs);
    HasIsHistory(OnlyAdds(cs), jti, now);
  }
}
