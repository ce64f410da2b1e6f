/**
  One request that runs alone: what the middleware does to its LRU and to the table in one go, and
  that the protocol's steps of that request add up to it.
 */
module Sequential {
  import opened Common
  import opened Protocol
  import opened Liveness
  import Lru

  /** The instance's LRU and the table after the request, the answer it sent, and whether it ran the handler. */
  datatype Served = Served(mem: Lru.Cache, table: map<CacheKey, Row>, answer: Option<Payload>, ran: bool)

  /** LRU hit, else live row (reloaded into the LRU), else run; a successful run is stored in both layers. */
  function ServeAlone(
    maxSize: int, ttl: int, now: int, mem: Lru.Cache, table: map<CacheKey, Row>, k: CacheKey, outcome: Option<Payload>)
    : Served
  {
    match Lru.Lookup(mem, k)
    case Some(v) => Served(Lru.AfterGet(mem, k), table, Some(v.payload), false)
    case None =>
      if k in table && now < table[k].expiresAt then
        var v := CacheValue(table[k].payload, table[k].createdAt);
        Served(Lru.AfterSet(mem, maxSize, k, v), table, Some(v.payload), false)
      else
        match outcome
        case None => Served(mem, table, None, true)
        case Some(p) =>
          Served(
            Lru.AfterSet(mem, maxSize, k, CacheValue(p, now)),
            if k in table then table else table[k := Row(p, now, now + ttl)],
            Some(p), true)
  }

  /** Nothing else is going on at instance i or at k's lock, and the instance can serve one request. */
  ghost predicate Idle(cfg: Config, s: State, i: nat, k: CacheKey) {
    && i < |s.mem| == cfg.instances
    && Active(s.reqs, i) < cfg.admitted && Used(s.reqs, i) == 0
    && (cfg.pool <= 0 || cfg.pool > 1)
    && LockOf(cfg, k) !in s.locks
  }

  /** s with the lone request appended in the given stage, holding its lock or not. */
  function With(cfg: Config, s: State, i: nat, k: CacheKey, st: Stage): State {
    s.(reqs := s.reqs + [Req(i, k, st)],
       locks := if Holds(st) then s.locks[LockOf(cfg, k) := |s.reqs|] else s.locks)
  }

  lemma {:induction false} PathSnoc(cfg: Config, s: State, ls: seq<Label>, t: State, l: Label)
    requires Path(cfg, s, ls, t) && Enabled(cfg, t, l)
    ensures Path(cfg, s, ls + [l], Next(cfg, t, l))
  {
    var u := Next(cfg, t, l);
    assert [l][1..] == [];
    assert Path(cfg, u, [], u);
    assert Path(cfg, t, [l], u);
    PathAppend(cfg, s, ls, t, [l], u);
  }

  lemma {:induction false} PathTwo(cfg: Config, s: State, l: Label, m: Label)
    requires Enabled(cfg, s, l) && Enabled(cfg, Next(cfg, s, l), m)
    ensures Path(cfg, s, [l, m], Next(cfg, Next(cfg, s, l), m))
  {
    assert Path(cfg, s, [], s);
    PathSnoc(cfg, s, [], s, l);
    assert [] + [l] == [l] && [l] + [m] == [l, m];
    PathSnoc(cfg, s, [l], Next(cfg, s, l), m);
  }

  /** An advance of the lone request that leaves LRU, table and histories alone. */
  lemma Lone(cfg: Config, s: State, i: nat, k: CacheKey, st: Stage)
    requires Idle(cfg, s, i, k)
    ensures var t := With(cfg, s, i, k, st);
            CanTake(cfg, t, i) || Conns(st) == 2
    ensures var t := With(cfg, s, i, k, st);
            forall st' | Holds(st') == Holds(st) :: At(t, |s.reqs|, st') == With(cfg, s, i, k, st')
  {
    SumsAppend(s.reqs, Req(i, k, st), i);
    var t := With(cfg, s, i, k, st);
    forall st' | Holds(st') == Holds(st)
      ensures At(t, |s.reqs|, st') == With(cfg, s, i, k, st')
    {
      assert t.reqs[|s.reqs| := Req(i, k, st')] == s.reqs + [Req(i, k, st')];
    }
  }

  lemma Ending(cfg: Config, s: State, i: nat, k: CacheKey, st: Stage, end: Stage)
    requires Idle(cfg, s, i, k) && Holds(st) && !Holds(end)
    ensures Release(cfg, With(cfg, s, i, k, st), |s.reqs|, end) == With(cfg, s, i, k, end)
  {
    var t := With(cfg, s, i, k, st);
    assert t.reqs[|s.reqs| := Req(i, k, end)] == s.reqs + [Req(i, k, end)];
    assert t.locks - {LockOf(cfg, k)} == s.locks;
  }

  lemma Begin(cfg: Config, s: State, i: nat, k: CacheKey) returns (ls: seq<Label>)
    requires Idle(cfg, s, i, k)
    ensures Path(cfg, s, ls, With(cfg, s, i, k, MemLookup))
  {
    var r := |s.reqs|;
    PathTwo(cfg, s, Arrive(i, k), Advance(r)) by { Lone(cfg, s, i, k, Arrived); }
    Lone(cfg, s, i, k, Arrived);
    var t := With(cfg, s, i, k, AwaitLock);
    assert Next(cfg, Next(cfg, s, Arrive(i, k)), Advance(r)) == t;
    PathSnoc(cfg, s, [Arrive(i, k), Advance(r)], t, Advance(r));
    ls := [Arrive(i, k), Advance(r)] + [Advance(r)];
    assert t.reqs[r := Req(i, k, MemLookup)] == s.reqs + [Req(i, k, MemLookup)];
  }

  /** One advance between stages that hold the lock. */
  lemma Hop(cfg: Config, s0: State, ls: seq<Label>, s: State, i: nat, k: CacheKey, st: Stage, st': Stage) returns (ms: seq<Label>)
    requires Idle(cfg, s, i, k) && Path(cfg, s0, ls, With(cfg, s, i, k, st)) && Holds(st) && Holds(st') && !st.Running?
    requires Step(cfg, With(cfg, s, i, k, st), |s.reqs|) == At(With(cfg, s, i, k, st), |s.reqs|, st')
    ensures Path(cfg, s0, ms, With(cfg, s, i, k, st'))
  {
    Lone(cfg, s, i, k, st);
    PathSnoc(cfg, s0, ls, With(cfg, s, i, k, st), Advance(|s.reqs|));
    ms := ls + [Advance(|s.reqs|)];
  }

  function Serve(cfg: Config, s: State, i: nat, k: CacheKey, outcome: Option<Payload>): Served
    requires i < |s.mem|
  {
    ServeAlone(cfg.maxSize, cfg.ttl, s.now, s.mem[i], s.table, k, outcome)
  }

  /** The state after the lone request: both layers as served, histories extended, everything else as before. */
  function Alone(cfg: Config, s: State, i: nat, k: CacheKey, outcome: Option<Payload>): State
    requires i < |s.mem|
  {
    var d := Serve(cfg, s, i, k, outcome);
    With(cfg,
      s.(mem := s.mem[i := d.mem],
         table := d.table,
         runs := if d.ran then s.runs + [Run(k, outcome)] else s.runs,
         answers := if d.answer.Some? then s.answers + [Answer(k, d.answer.value, !d.ran)] else s.answers,
         stores := if d.ran && outcome.Some? && k !in s.table then s.stores + [k] else s.stores),
      i, k, Done)
  }

  /** From the lookup that hits to the commit: the response is on its way, and nothing is held. */
  lemma HitSendPath(cfg: Config, s: State, i: nat, k: CacheKey) returns (ls: seq<Label>)
    requires Idle(cfg, s, i, k) && Lru.Lookup(s.mem[i], k).Some?
    ensures var b := s.(mem := s.mem[i := Lru.AfterGet(s.mem[i], k)]);
            Path(cfg, s, ls, With(cfg, b, i, k, Sending(Lru.Lookup(s.mem[i], k).value.payload)))
  {
    var r, v := |s.reqs|, Lru.Lookup(s.mem[i], k).value;
    ls := Begin(cfg, s, i, k);
    Lone(cfg, s, i, k, MemLookup);
    PathSnoc(cfg, s, ls, With(cfg, s, i, k, MemLookup), Advance(r));
    ls := ls + [Advance(r)];
    var b := s.(mem := s.mem[i := Lru.AfterGet(s.mem[i], k)]);
    assert Step(cfg, With(cfg, s, i, k, MemLookup), r) == With(cfg, b, i, k, Replay(v));
    ls := CommitHop(cfg, s, ls, b, i, k, v);
  }

  /** The commit of a replay. */
  lemma CommitHop(cfg: Config, s: State, ms: seq<Label>, b: State, i: nat, k: CacheKey, v: CacheValue) returns (ls: seq<Label>)
    requires Idle(cfg, b, i, k) && Path(cfg, s, ms, With(cfg, b, i, k, Replay(v)))
    ensures Path(cfg, s, ls, With(cfg, b, i, k, Sending(v.payload)))
  {
    Ending(cfg, b, i, k, Replay(v), Sending(v.payload));
    PathSnoc(cfg, s, ms, With(cfg, b, i, k, Replay(v)), Advance(|b.reqs|));
    ls := ms + [Advance(|b.reqs|)];
  }

  /** The sending of it. */
  lemma SendHop(cfg: Config, s: State, ms: seq<Label>, b: State, i: nat, k: CacheKey, p: Payload) returns (ls: seq<Label>)
    requires Idle(cfg, b, i, k) && Path(cfg, s, ms, With(cfg, b, i, k, Sending(p)))
    ensures Path(cfg, s, ls, With(cfg, b.(answers := b.answers + [Answer(k, p, true)]), i, k, Done))
  {
    Lone(cfg, b, i, k, Sending(p));
    PathSnoc(cfg, s, ms, With(cfg, b, i, k, Sending(p)), Advance(|b.reqs|));
    ls := ms + [Advance(|b.reqs|)];
  }

  lemma HitPath(cfg: Config, s: State, i: nat, k: CacheKey, outcome: Option<Payload>) returns (ls: seq<Label>)
    requires Idle(cfg, s, i, k) && Lru.Lookup(s.mem[i], k).Some?
    ensures Path(cfg, s, ls, Alone(cfg, s, i, k, outcome))
  {
    var b := s.(mem := s.mem[i := Lru.AfterGet(s.mem[i], k)]);
    ls := HitSendPath(cfg, s, i, k);
    ls := SendHop(cfg, s, ls, b, i, k, Lru.Lookup(s.mem[i], k).value.payload);
  }

  lemma ReplayTail(cfg: Config, s: State, ms: seq<Label>, b: State, i: nat, k: CacheKey, v: CacheValue) returns (ls: seq<Label>)
    requires Idle(cfg, b, i, k) && Path(cfg, s, ms, With(cfg, b, i, k, Replay(v)))
    ensures Path(cfg, s, ls, With(cfg, b.(answers := b.answers + [Answer(k, v.payload, true)]), i, k, Done))
  {
    ls := CommitHop(cfg, s, ms, b, i, k, v);
    ls := SendHop(cfg, s, ls, b, i, k, v.payload);
  }

  /** From the lock to the SELECT, on an LRU miss. */
  lemma MissPath(cfg: Config, s: State, i: nat, k: CacheKey) returns (ls: seq<Label>)
    requires Idle(cfg, s, i, k) && Lru.Lookup(s.mem[i], k).None?
    ensures Path(cfg, s, ls, With(cfg, s, i, k, DbQuery))
  {
    ls := Begin(cfg, s, i, k);
    ls := Hop(cfg, s, ls, s, i, k, MemLookup, DbWait);
    ls := Hop(cfg, s, ls, s, i, k, DbWait, DbQuery);
  }

  lemma ReloadPath(cfg: Config, s: State, i: nat, k: CacheKey, outcome: Option<Payload>) returns (ls: seq<Label>)
    requires Idle(cfg, s, i, k) && Lru.Lookup(s.mem[i], k).None? && Live(s, k)
    ensures Path(cfg, s, ls, Alone(cfg, s, i, k, outcome))
  {
    var r, v := |s.reqs|, CacheValue(s.table[k].payload, s.table[k].createdAt);
    ls := MissPath(cfg, s, i, k);
    ls := Hop(cfg, s, ls, s, i, k, DbQuery, Reload(v));
    Lone(cfg, s, i, k, Reload(v));
    PathSnoc(cfg, s, ls, With(cfg, s, i, k, Reload(v)), Advance(r));
    ls := ls + [Advance(r)];
    var b := s.(mem := s.mem[i := Lru.AfterSet(s.mem[i], cfg.maxSize, k, v)]);
    assert Step(cfg, With(cfg, s, i, k, Reload(v)), r) == With(cfg, b, i, k, Replay(v));
    ls := ReplayTail(cfg, s, ls, b, i, k, v);
  }

  /** From the SELECT that finds no live row to the running handler. */
  lemma RunPath(cfg: Config, s: State, i: nat, k: CacheKey) returns (ls: seq<Label>)
    requires Idle(cfg, s, i, k) && Lru.Lookup(s.mem[i], k).None? && !Live(s, k)
    ensures Path(cfg, s, ls, With(cfg, s, i, k, Running))
  {
    ls := MissPath(cfg, s, i, k);
    ls := Hop(cfg, s, ls, s, i, k, DbQuery, RunWait);
    ls := Hop(cfg, s, ls, s, i, k, RunWait, Running);
  }

  lemma FailPath(cfg: Config, s: State, i: nat, k: CacheKey) returns (ls: seq<Label>)
    requires Idle(cfg, s, i, k) && Lru.Lookup(s.mem[i], k).None? && !Live(s, k)
    ensures Path(cfg, s, ls, Alone(cfg, s, i, k, None))
  {
    var r := |s.reqs|;
    ls := RunPath(cfg, s, i, k);
    Ending(cfg, s, i, k, Running, Done);
    PathSnoc(cfg, s, ls, With(cfg, s, i, k, Running), Finish(r, None));
    ls := ls + [Finish(r, None)];
    assert s.mem[i := s.mem[i]] == s.mem;
  }

  /** From the lock to the stamped result of a successful run. */
  lemma StampPath(cfg: Config, s: State, i: nat, k: CacheKey, p: Payload) returns (ls: seq<Label>)
    requires Idle(cfg, s, i, k) && Lru.Lookup(s.mem[i], k).None? && !Live(s, k)
    ensures var b := s.(runs := s.runs + [Run(k, Some(p))], answers := s.answers + [Answer(k, p, false)]);
            Path(cfg, s, ls, With(cfg, b, i, k, Stamped(CacheValue(p, s.now))))
  {
    var r := |s.reqs|;
    ls := RunPath(cfg, s, i, k);
    Lone(cfg, s, i, k, Running);
    PathSnoc(cfg, s, ls, With(cfg, s, i, k, Running), Finish(r, Some(p)));
    ls := ls + [Finish(r, Some(p))];
    var b := s.(runs := s.runs + [Run(k, Some(p))], answers := s.answers + [Answer(k, p, false)]);
    ls := Hop(cfg, s, ls, b, i, k, Produced(p), Stamped(CacheValue(p, s.now)));
  }

  /** The LRU write of a successful run. */
  lemma WritePath(cfg: Config, s: State, ms: seq<Label>, b: State, i: nat, k: CacheKey, v: CacheValue) returns (ls: seq<Label>)
    requires Idle(cfg, b, i, k) && Path(cfg, s, ms, With(cfg, b, i, k, Stamped(v)))
    ensures var c := b.(mem := b.mem[i := Lru.AfterSet(b.mem[i], cfg.maxSize, k, v)]);
            Path(cfg, s, ls, With(cfg, c, i, k, InMemory(v.payload)))
  {
    var r := |b.reqs|;
    Lone(cfg, b, i, k, Stamped(v));
    PathSnoc(cfg, s, ms, With(cfg, b, i, k, Stamped(v)), Advance(r));
    ls := ms + [Advance(r)];
    var c := b.(mem := b.mem[i := Lru.AfterSet(b.mem[i], cfg.maxSize, k, v)]);
    assert Step(cfg, With(cfg, b, i, k, Stamped(v)), r) == With(cfg, c, i, k, InMemory(v.payload));
  }

  /** The state before the insert of a successful run that runs alone. */
  function Ran(cfg: Config, s: State, i: nat, k: CacheKey, p: Payload): State
    requires i < |s.mem|
  {
    s.(runs := s.runs + [Run(k, Some(p))], answers := s.answers + [Answer(k, p, false)],
       mem := s.mem[i := Lru.AfterSet(s.mem[i], cfg.maxSize, k, CacheValue(p, s.now))])
  }

  lemma AloneRan(cfg: Config, s: State, i: nat, k: CacheKey, p: Payload)
    requires i < |s.mem| && Lru.Lookup(s.mem[i], k).None? && !Live(s, k)
    ensures Alone(cfg, s, i, k, Some(p)) ==
            With(cfg, Insert(Ran(cfg, s, i, k, p), k, Row(p, s.now, s.now + cfg.ttl)), i, k, Done)
  {
  }

  lemma SucceedPath(cfg: Config, s: State, i: nat, k: CacheKey, p: Payload) returns (ls: seq<Label>)
    requires Idle(cfg, s, i, k) && Lru.Lookup(s.mem[i], k).None? && !Live(s, k)
    ensures Path(cfg, s, ls, Alone(cfg, s, i, k, Some(p)))
  {
    var v := CacheValue(p, s.now);
    var b := s.(runs := s.runs + [Run(k, Some(p))], answers := s.answers + [Answer(k, p, false)]);
    var c := Ran(cfg, s, i, k, p);
    ls := StampPath(cfg, s, i, k, p);
    ls := WritePath(cfg, s, ls, b, i, k, v);
    ls := CreatePath(cfg, s, ls, c, i, k, p);
    ls := StoreTail(cfg, s, ls, c, i, k, p);
    AloneRan(cfg, s, i, k, p);
  }

  /** From the LRU write to the insert: expiry and connection. */
  lemma CreatePath(cfg: Config, s: State, ms: seq<Label>, b: State, i: nat, k: CacheKey, p: Payload) returns (ls: seq<Label>)
    requires Idle(cfg, b, i, k) && Path(cfg, s, ms, With(cfg, b, i, k, InMemory(p)))
    ensures Path(cfg, s, ls, With(cfg, b, i, k, Creating(p, b.now + cfg.ttl, b.now)))
  {
    var e := b.now + cfg.ttl;
    ls := Hop(cfg, s, ms, b, i, k, InMemory(p), Expiring(p, e));
    ls := Hop(cfg, s, ls, b, i, k, Expiring(p, e), CreateWait(p, e, b.now));
    ls := Hop(cfg, s, ls, b, i, k, CreateWait(p, e, b.now), Creating(p, e, b.now));
  }

  /** From the insert to the end. */
  lemma StoreTail(cfg: Config, s: State, ms: seq<Label>, b: State, i: nat, k: CacheKey, p: Payload) returns (ls: seq<Label>)
    requires Idle(cfg, b, i, k) && Path(cfg, s, ms, With(cfg, b, i, k, Creating(p, b.now + cfg.ttl, b.now)))
    ensures Path(cfg, s, ls, With(cfg, Insert(b, k, Row(p, b.now, b.now + cfg.ttl)), i, k, Done))
  {
    var r, e := |b.reqs|, b.now + cfg.ttl;
    Lone(cfg, b, i, k, Creating(p, e, b.now));
    PathSnoc(cfg, s, ms, With(cfg, b, i, k, Creating(p, e, b.now)), Advance(r));
    ls := ms + [Advance(r)];
    var c := Insert(b, k, Row(p, b.now, e));
    assert Step(cfg, With(cfg, b, i, k, Creating(p, e, b.now)), r) == With(cfg, c, i, k, Created);
    Ending(cfg, c, i, k, Created, Done);
    PathSnoc(cfg, s, ls, With(cfg, c, i, k, Created), Advance(r));
    ls := ls + [Advance(r)];
  }

  /** The protocol steps of a request that runs alone do exactly what ServeAlone says. */
  lemma AlonePath(cfg: Config, s: State, i: nat, k: CacheKey, outcome: Option<Payload>) returns (ls: seq<Label>)
    requires Idle(cfg, s, i, k)
    ensures Path(cfg, s, ls, Alone(cfg, s, i, k, outcome))
  {
    if Lru.Lookup(s.mem[i], k).Some? {
      ls := HitPath(cfg, s, i, k, outcome);
    } else if Live(s, k) {
      ls := ReloadPath(cfg, s, i, k, outcome);
    } else if outcome.None? {
      ls := FailPath(cfg, s, i, k);
    } else {
      ls := SucceedPath(cfg, s, i, k, outcome.value);
    }
  }
}
