/**
  The blacklist under concurrency: a lookup loads the entry, reads the clock and may delete, each a
  separate step; a cleanup reads the clock once and then tests and deletes key by key.
 */
module Revocation {
  import opened Common
  import Blacklist

  /** due is the expiry of the last Add completed when the lookup started, if any. */
  datatype Proc =
    | Checking(jti: string, due: Option<int>)
    | Loaded(jti: string, due: Option<int>, expiresAt: int)
    | Deleting(jti: string, due: Option<int>, at: int)
    | Answered(jti: string, due: Option<int>, revoked: bool, at: int)
    | Cleaning(since: int, pending: Option<string>)

  datatype State = State(now: int, m: map<string, int>, procs: seq<Proc>, added: map<string, int>)

  datatype Label =
    | Add(jti: string, expiresAt: int)
    | StartHas(jti: string)
    | Load(p: nat)
    | ReadClock(p: nat)
    | Delete(p: nat)
    | StartCleanup
    | Test(p: nat, key: string)
    | Remove(p: nat)
    | Tick(d: nat)

  predicate Enabled(s: State, l: Label) {
    match l
    case Load(p) => p < |s.procs| && s.procs[p].Checking?
    case ReadClock(p) => p < |s.procs| && s.procs[p].Loaded?
    case Delete(p) => p < |s.procs| && s.procs[p].Deleting?
    case Test(p, key) => p < |s.procs| && s.procs[p].Cleaning? && s.procs[p].pending.None? && key in s.m
    case Remove(p) => p < |s.procs| && s.procs[p].Cleaning? && s.procs[p].pending.Some?
    case _ => true
  }

  /** The expiry of the last Add so far. */
  function DueNow(s: State, jti: string): Option<int> {
    if jti in s.added then Some(s.added[jti]) else None
  }

  function Put(s: State, p: nat, x: Proc): State
    requires p < |s.procs|
  {
    s.(procs := s.procs[p := x])
  }

  function Next(s: State, l: Label): State
    requires Enabled(s, l)
  {
    match l
    case Add(jti, e) => s.(m := s.m[jti := e], added := s.added[jti := e])
    case StartHas(jti) =>
      s.(procs := s.procs + [Checking(jti, DueNow(s, jti))])
    case Load(p) =>
      var Checking(jti, due) := s.procs[p];
      Put(s, p, if jti in s.m then Loaded(jti, due, s.m[jti]) else Answered(jti, due, false, s.now))
    case ReadClock(p) =>
      var Loaded(jti, due, e) := s.procs[p];
      Put(s, p, if s.now > e then Deleting(jti, due, s.now) else Answered(jti, due, true, s.now))
    case Delete(p) =>
      var Deleting(jti, due, at) := s.procs[p];
      Put(s, p, Answered(jti, due, false, at)).(m := s.m - {jti})
    case StartCleanup => s.(procs := s.procs + [Cleaning(s.now, None)])
    case Test(p, key) =>
      if s.procs[p].since > s.m[key] then Put(s, p, Cleaning(s.procs[p].since, Some(key))) else s
    case Remove(p) =>
      Put(s, p, Cleaning(s.procs[p].since, None)).(m := s.m - {s.procs[p].pending.value})
    case Tick(d) => s.(now := s.now + d)
  }

  function Init(start: int): State {
    State(start, map[], [], map[])
  }

  /** A run in which every Add for the token carries one of the given expiries. */
  ghost predicate Path(jti: string, expiries: set<int>, s: State, ls: seq<Label>, t: State)
    decreases |ls|
  {
    if ls == [] then s == t
    else
      && Enabled(s, ls[0])
      && (ls[0].Add? && ls[0].jti == jti ==> ls[0].expiresAt in expiries)
      && Path(jti, expiries, Next(s, ls[0]), ls[1..], t)
  }

  ghost predicate Reachable(jti: string, expiries: set<int>, t: State) {
    exists start, ls :: Path(jti, expiries, Init(start), ls, t)
  }

  /** A finished lookup that started after an Add answers by that Add's expiry at its deciding moment. */
  predicate Faithful(x: Proc) {
    x.Answered? && x.due.Some? ==> (x.revoked <==> x.at <= x.due.value)
  }

  /** A token that a lookup finds revoked has been added. */
  predicate Warranted(s: State, x: Proc) {
    x.Answered? && x.revoked ==> x.jti in s.added
  }

  ghost predicate AlwaysFaithful(jti: string, expiries: set<int>) {
    forall s, p | Reachable(jti, expiries, s) && 0 <= p < |s.procs| && s.procs[p].Answered? && s.procs[p].jti == jti ::
      Faithful(s.procs[p]) && Warranted(s, s.procs[p])
  }

  // ---- Nothing is revoked that was not added ----

  /** What a lookup has found in the map was added, and so is all that is there. */
  ghost predicate Known(s: State) {
    && s.m.Keys <= s.added.Keys
    && forall p | 0 <= p < |s.procs| :: Found(s.procs[p]) ==> s.procs[p].jti in s.added
  }

  predicate Found(x: Proc) {
    x.Loaded? || x.Deleting? || (x.Answered? && x.revoked)
  }

  lemma NextKnown(s: State, l: Label)
    requires Known(s) && Enabled(s, l)
    ensures Known(Next(s, l))
  {
    var t := Next(s, l);
    forall q | 0 <= q < |t.procs| && Found(t.procs[q])
      ensures t.procs[q].jti in t.added
    {
      if q < |s.procs| && Found(s.procs[q]) {
        assert s.procs[q].jti in s.added;
      }
    }
  }

  lemma {:induction false} PathKnown(jti: string, expiries: set<int>, s: State, ls: seq<Label>, t: State)
    requires Known(s) && Path(jti, expiries, s, ls, t)
    ensures Known(t)
    decreases |ls|
  {
    if ls != [] {
      NextKnown(s, ls[0]);
      PathKnown(jti, expiries, Next(s, ls[0]), ls[1..], t);
    }
  }

  /** Whatever the expiries and the interleaving, a lookup calls revoked only what was. */
  lemma OnlyAddedIsRevoked(jti: string, expiries: set<int>, s: State, p: nat)
    requires Reachable(jti, expiries, s) && p < |s.procs|
    ensures Warranted(s, s.procs[p])
  {
    var start, ls :| Path(jti, expiries, Init(start), ls, s);
    PathKnown(jti, expiries, Init(start), ls, s);
  }

  // ---- One expiry per token: no interleaving loses a revocation ----

  ghost predicate ProcOk(s: State, jti: string, e: int, x: Proc) {
    if x.Cleaning? then x.since <= s.now && (x.pending == Some(jti) ==> s.now > e)
    else x.jti == jti ==>
      && (x.due.Some? ==> x.due.value == e && jti in s.added)
      && (x.Loaded? ==> x.expiresAt == e)
      && (x.Deleting? ==> e < x.at <= s.now)
      && (x.Answered? && x.revoked ==> x.at <= e)
      && Faithful(x)
  }

  ghost predicate Inv(s: State, jti: string, e: int) {
    && (jti in s.m ==> s.m[jti] == e)
    && (jti in s.added ==> s.added[jti] == e)
    && (jti in s.added && jti !in s.m ==> s.now > e)
    && forall p | 0 <= p < |s.procs| :: ProcOk(s, jti, e, s.procs[p])
  }

  lemma NextKeeps(s: State, l: Label, jti: string, e: int)
    requires Inv(s, jti, e) && Enabled(s, l) && (l.Add? && l.jti == jti ==> l.expiresAt == e)
    ensures Inv(Next(s, l), jti, e)
  {
    var t := Next(s, l);
    forall q | 0 <= q < |t.procs|
      ensures ProcOk(t, jti, e, t.procs[q])
    {
      if q < |s.procs| {
        assert ProcOk(s, jti, e, s.procs[q]);
      }
    }
    if l.Delete? || l.Remove? {
      assert ProcOk(s, jti, e, s.procs[l.p]);
    }
  }

  lemma {:induction false} PathKeeps(s: State, ls: seq<Label>, t: State, jti: string, e: int)
    requires Inv(s, jti, e) && Path(jti, {e}, s, ls, t)
    ensures Inv(t, jti, e)
    decreases |ls|
  {
    if ls != [] {
      NextKeeps(s, ls[0], jti, e);
      PathKeeps(Next(s, ls[0]), ls[1..], t, jti, e);
    }
  }

  lemma {:induction false} PathSubset(jti: string, few: set<int>, many: set<int>, s: State, ls: seq<Label>, t: State)
    requires few <= many && Path(jti, few, s, ls, t)
    ensures Path(jti, many, s, ls, t)
    decreases |ls|
  {
    if ls != [] {
      PathSubset(jti, few, many, Next(s, ls[0]), ls[1..], t);
    }
  }

  /** With one expiry, as a token's own exp is, every lookup after an Add is right, whatever runs in between. */
  lemma OneExpiryIsFaithful(jti: string, e: int, s: State, p: nat)
    requires Reachable(jti, {e}, s) && p < |s.procs| && s.procs[p].Answered? && s.procs[p].jti == jti
    ensures s.procs[p].due.Some? ==> s.procs[p].due == Some(e)
    ensures s.procs[p].due.Some? ==> (s.procs[p].revoked <==> s.procs[p].at <= e)
    ensures s.procs[p].revoked ==> jti in s.added && s.procs[p].at <= e
  {
    OnlyAddedIsRevoked(jti, {e}, s, p);
    var start, ls :| Path(jti, {e}, Init(start), ls, s);
    PathKeeps(Init(start), ls, s, jti, e);
    assert ProcOk(s, jti, e, s.procs[p]);
  }

  // ---- Two expiries: a stale delete can remove a newer revocation ----

  lemma PathCons(jti: string, es: set<int>, s: State, l: Label, ls: seq<Label>, t: State)
    requires Enabled(s, l) && (l.Add? && l.jti == jti ==> l.expiresAt in es)
    requires Path(jti, es, Next(s, l), ls, t)
    ensures Path(jti, es, s, [l] + ls, t)
  {
    assert ([l] + ls)[1..] == ls;
  }

  lemma {:induction false} PathAppend(jti: string, es: set<int>, s: State, ls: seq<Label>, t: State, ms: seq<Label>, u: State)
    requires Path(jti, es, s, ls, t) && Path(jti, es, t, ms, u)
    ensures Path(jti, es, s, ls + ms, u)
    decreases |ls|
  {
    if ls == [] {
      assert ls + ms == ms;
    } else {
      PathAppend(jti, es, Next(s, ls[0]), ls[1..], t, ms, u);
      assert (ls + ms)[1..] == ls[1..] + ms;
    }
  }

  lemma PathSnoc(jti: string, es: set<int>, s: State, ls: seq<Label>, t: State, l: Label)
    requires Path(jti, es, s, ls, t) && Enabled(t, l) && (l.Add? && l.jti == jti ==> l.expiresAt in es)
    ensures Path(jti, es, s, ls + [l], Next(t, l))
  {
    assert Path(jti, es, Next(t, l), [], Next(t, l));
    PathCons(jti, es, t, l, [], Next(t, l));
    assert [l] + [] == [l];
    PathAppend(jti, es, s, ls, t, [l], Next(t, l));
  }

  lemma ReachableNext(jti: string, es: set<int>, s: State, l: Label) returns (t: State)
    requires Reachable(jti, es, s) && Enabled(s, l) && (l.Add? && l.jti == jti ==> l.expiresAt in es)
    ensures t == Next(s, l) && Reachable(jti, es, t)
  {
    t := Next(s, l);
    var start, ls :| Path(jti, es, Init(start), ls, s);
    PathSnoc(jti, es, Init(start), ls, s, l);
  }

  /** A lookup of the old entry expires, a longer Add completes, and the lookup's delete removes it. */
  lemma StaleDelete(jti: string, es: set<int>, old': int, new': int) returns (t: State)
    requires old' in es && new' in es && old' < new'
    ensures Reachable(jti, es, t) && |t.procs| == 2
    ensures t.procs[1] == Answered(jti, Some(new'), false, old' + 1)
  {
    t := Init(old');
    assert Path(jti, es, t, [], t);
    t := ReachableNext(jti, es, t, Add(jti, old'));
    t := ReachableNext(jti, es, t, StartHas(jti));
    t := ReachableNext(jti, es, t, Load(0));
    t := ReachableNext(jti, es, t, Tick(1));
    t := ReachableNext(jti, es, t, ReadClock(0));
    t := ReachableNext(jti, es, t, Add(jti, new'));
    t := ReachableNext(jti, es, t, Delete(0));
    t := ReachableNext(jti, es, t, StartHas(jti));
    t := ReachableNext(jti, es, t, Load(1));
  }

  /** Lookups stay right in every run exactly when all Adds of the token carry the same expiry. */
  lemma FaithfulExactly(jti: string, expiries: set<int>)
    ensures AlwaysFaithful(jti, expiries) <==> forall a, b | a in expiries && b in expiries :: a == b
  {
    if a, b :| a in expiries && b in expiries && a < b {
      var t := StaleDelete(jti, expiries, a, b);
      assert !Faithful(t.procs[1]);
    } else {
      var e := 0;
      if x :| x in expiries {
        e := x;
      }
      forall x | x in expiries
        ensures x == e
      {
        assert e in expiries;
        assert !(x < e) && !(e < x);
      }
      forall s, p | Reachable(jti, expiries, s) && 0 <= p < |s.procs| && s.procs[p].Answered? && s.procs[p].jti == jti
        ensures Faithful(s.procs[p]) && Warranted(s, s.procs[p])
      {
        var start, ls :| Path(jti, expiries, Init(start), ls, s);
        PathSubset(jti, expiries, {e}, Init(start), ls, s);
        OneExpiryIsFaithful(jti, e, s, p);
      }
    }
  }

  // ---- The histories in the state are the run's ----

  /** The expiry of the last Add of the token among the labels. */
  function LastAdded(ls: seq<Label>, jti: string): Option<int> {
    if ls == [] then None
    else
      var later := LastAdded(ls[1..], jti);
      if later.Some? then later
      else if ls[0].Add? && ls[0].jti == jti then Some(ls[0].expiresAt)
      else None
  }

  lemma {:induction false} AddedIsHistory(jti: string, es: set<int>, s: State, ls: seq<Label>, t: State)
    requires Path(jti, es, s, ls, t)
    ensures DueNow(t, jti) == if LastAdded(ls, jti).Some? then LastAdded(ls, jti) else DueNow(s, jti)
    decreases |ls|
  {
    if ls != [] {
      AddedIsHistory(jti, es, Next(s, ls[0]), ls[1..], t);
    }
  }

  /** A lookup stays the one it was started as. */
  predicate SameLookup(x: Proc, y: Proc) {
    !x.Cleaning? && !y.Cleaning? && x.jti == y.jti && x.due == y.due
  }

  lemma {:induction false} LookupStays(jti: string, es: set<int>, s: State, ls: seq<Label>, t: State, p: nat)
    requires Path(jti, es, s, ls, t) && p < |s.procs| && !s.procs[p].Cleaning?
    ensures p < |t.procs| && SameLookup(s.procs[p], t.procs[p])
    decreases |ls|
  {
    if ls != [] {
      LookupStays(jti, es, Next(s, ls[0]), ls[1..], t, p);
    }
  }

  /**
    The same in terms of the run alone: a lookup started after the labels `before` and finished during the labels `after`
    says revoked up to e if there was an Add before it; and it says so only if there was one by its end, and only up to e.
   */
  lemma LookupsAnswerTheRun(
    jti: string, e: int, start: int, before: seq<Label>, s: State, after: seq<Label>, t: State)
    requires Path(jti, {e}, Init(start), before, s) && Path(jti, {e}, Next(s, StartHas(jti)), after, t)
    ensures |s.procs| < |t.procs|
    ensures var x := t.procs[|s.procs|];
            x.Answered? ==>
              && (LastAdded(before, jti).Some? ==> (x.revoked <==> x.at <= e))
              && (x.revoked ==> x.at <= e && (LastAdded(before, jti).Some? || LastAdded(after, jti).Some?))
  {
    var u := Next(s, StartHas(jti));
    PathCons(jti, {e}, s, StartHas(jti), after, t);
    PathAppend(jti, {e}, Init(start), before, s, [StartHas(jti)] + after, t);
    AddedIsHistory(jti, {e}, Init(start), before, s);
    AddedIsHistory(jti, {e}, u, after, t);
    LookupStays(jti, {e}, u, after, t, |s.procs|);
    if t.procs[|s.procs|].Answered? {
      OneExpiryIsFaithful(jti, e, t, |s.procs|);
    }
  }

  // ---- Alone, the steps are the blacklist's ----

  /** The steps of a lookup that runs alone add up to the whole lookup. */
  lemma LookupAlone(jti: string, es: set<int>, s: State) returns (ls: seq<Label>, t: State)
    ensures Path(jti, es, s, ls, t) && |t.procs| == |s.procs| + 1
    ensures t.m == Blacklist.AfterHas(s.m, jti, s.now) && t.now == s.now && t.added == s.added
    ensures var x := t.procs[|s.procs|];
            x.Answered? && x.jti == jti && x.at == s.now && (x.revoked <==> Blacklist.Has(s.m, jti, s.now))
  {
    var p := |s.procs|;
    var s1 := Next(s, StartHas(jti));
    var s2 := Next(s1, Load(p));
    if s2.procs[p].Answered? {
      t, ls := s2, [StartHas(jti)] + ([Load(p)] + []);
    } else {
      var s3 := Next(s2, ReadClock(p));
      if s3.procs[p].Answered? {
        t, ls := s3, [StartHas(jti)] + ([Load(p)] + ([ReadClock(p)] + []));
      } else {
        t := Next(s3, Delete(p));
        ls := [StartHas(jti)] + ([Load(p)] + ([ReadClock(p)] + ([Delete(p)] + [])));
        PathCons(jti, es, s3, Delete(p), [], t);
        PathCons(jti, es, s2, ReadClock(p), [Delete(p)] + [], t);
        PathCons(jti, es, s1, Load(p), [ReadClock(p)] + ([Delete(p)] + []), t);
      }
      if s3.procs[p].Answered? {
        PathCons(jti, es, s2, ReadClock(p), [], t);
        PathCons(jti, es, s1, Load(p), [ReadClock(p)] + [], t);
      }
    }
    if s2.procs[p].Answered? {
      PathCons(jti, es, s1, Load(p), [], t);
    }
    PathCons(jti, es, s, StartHas(jti), ls[1..], t);
  }

  /** The keys a cleanup has still to delete. */
  function Outdated(m: map<string, int>, since: int): set<string> {
    set j | j in m && since > m[j]
  }

  lemma {:induction false} CleanupRest(jti: string, es: set<int>, s: State, p: nat) returns (ls: seq<Label>, t: State)
    requires p < |s.procs| && s.procs[p].Cleaning? && s.procs[p].pending.None?
    ensures Path(jti, es, s, ls, t) && t.m == Blacklist.AfterCleanup(s.m, s.procs[p].since) && t.now == s.now
    decreases |Outdated(s.m, s.procs[p].since)|
  {
    var since := s.procs[p].since;
    if key :| key in Outdated(s.m, since) {
      var s1 := Next(s, Test(p, key));
      var s2 := Next(s1, Remove(p));
      assert Outdated(s2.m, since) == Outdated(s.m, since) - {key};
      ls, t := CleanupRest(jti, es, s2, p);
      PathCons(jti, es, s1, Remove(p), ls, t);
      PathCons(jti, es, s, Test(p, key), [Remove(p)] + ls, t);
      ls := [Test(p, key)] + ([Remove(p)] + ls);
    } else {
      ls, t := [], s;
      assert forall j | j in s.m :: j !in Outdated(s.m, since);
    }
  }

  /** And so do those of a cleanup. */
  lemma CleanupAlone(jti: string, es: set<int>, s: State) returns (ls: seq<Label>, t: State)
    ensures Path(jti, es, s, ls, t) && t.m == Blacklist.AfterCleanup(s.m, s.now) && t.now == s.now
  {
    var s1 := Next(s, StartCleanup);
    ls, t := CleanupRest(jti, es, s1, |s.procs|);
    PathCons(jti, es, s, StartCleanup, ls, t);
    ls := [StartCleanup] + ls;
  }
}
