/**
  How old a replayed response can be. A run of the protocol is watched at one instance: its cleanup
  takes effect at least every `interval`, and a value it has in hand, read from the table or just
  stamped, is written to its LRU within `delay`. Everything else interleaves freely.
 */
module Staleness {
  import opened Common
  import opened Protocol
  import opened Execution
  import opened Liveness
  import opened Sequential
  import Lru

  datatype Terms = Terms(inst: nat, interval: int, delay: int)

  /** cleaned: the time of the instance's last cleanup; held: when a request took its value in hand. */
  datatype Watch = Watch(s: State, cleaned: int, held: map<nat, int>)

  predicate InHand(st: Stage) {
    st.Reload? || st.Stamped?
  }

  function Start(cfg: Config, start: int): Watch {
    Watch(Init(cfg, start), start, map[])
  }

  function Observe(cfg: Config, tm: Terms, w: Watch, l: Label): Watch
    requires Enabled(cfg, w.s, l)
  {
    var t := Next(cfg, w.s, l);
    Watch(
      t,
      if l.MemCleanup? && l.inst == tm.inst then Max(w.cleaned, l.at) else w.cleaned,
      if l.Advance? && l.r < |t.reqs| && InHand(t.reqs[l.r].stage) then w.held[l.r := w.s.now] else w.held)
  }

  ghost predicate OnTime(tm: Terms, w: Watch) {
    && w.s.now <= w.cleaned + tm.interval
    && (forall r | 0 <= r < |w.s.reqs| && w.s.reqs[r].inst == tm.inst && InHand(w.s.reqs[r].stage) ::
          r in w.held && w.s.now <= w.held[r] + tm.delay)
  }

  /** The labels lead from the start to u, every one enabled and on time in its turn. */
  ghost predicate WatchedPath(cfg: Config, tm: Terms, start: int, ls: seq<Label>, u: Watch)
    decreases |ls|
  {
    if ls == [] then u == Start(cfg, start)
    else
      exists w ::
        && WatchedPath(cfg, tm, start, ls[..|ls| - 1], w) && Enabled(cfg, w.s, ls[|ls| - 1])
        && u == Observe(cfg, tm, w, ls[|ls| - 1]) && OnTime(tm, u)
  }

  ghost predicate Watched(cfg: Config, tm: Terms, u: Watch) {
    exists start, ls :: WatchedPath(cfg, tm, start, ls, u)
  }

  /** The response a step decides to replay, from memory or from the table. */
  function Taken(cfg: Config, s: State, l: Label): Option<CacheValue>
    requires Enabled(cfg, s, l)
  {
    if l.Advance? && l.r < |Next(cfg, s, l).reqs| && Next(cfg, s, l).reqs[l.r].stage.Replay?
    then Some(Next(cfg, s, l).reqs[l.r].stage.value) else None
  }

  /** In every watched run, no response the instance takes for a replay is older than the bound. */
  ghost predicate NeverOlder(cfg: Config, tm: Terms, bound: int) {
    forall w, l | Watched(cfg, tm, w) && Enabled(cfg, w.s, l) && IsRequestStep(l) && w.s.reqs[l.r].inst == tm.inst ::
      Taken(cfg, w.s, l).Some? ==> w.s.now - Taken(cfg, w.s, l).value.createdAt <= bound
  }

  lemma {:induction false} WatchedIsReachable(cfg: Config, tm: Terms, start: int, ls: seq<Label>, u: Watch)
    requires WatchedPath(cfg, tm, start, ls, u)
    ensures Reachable(cfg, u.s)
    decreases |ls|
  {
    if ls == [] {
      assert Path(cfg, Init(cfg, start), [], u.s);
    } else {
      var w :| WatchedPath(cfg, tm, start, ls[..|ls| - 1], w) && Enabled(cfg, w.s, ls[|ls| - 1])
        && u == Observe(cfg, tm, w, ls[|ls| - 1]) && OnTime(tm, u);
      WatchedIsReachable(cfg, tm, start, ls[..|ls| - 1], w);
      ReachableStep(cfg, w.s, ls[|ls| - 1]);
    }
  }

  // ---- The bound holds ----

  /** A row that is found is at least one tick younger than ttl, so the first tick of delay costs nothing. */
  function Lag(tm: Terms): int {
    Max(0, tm.delay - 1)
  }

  /** Entries at the last cleanup's cutoff, values in hand by when they were taken. */
  ghost predicate Young(cfg: Config, tm: Terms, w: Watch) {
    && tm.inst < |w.s.mem| && w.cleaned <= w.s.now && OnTime(tm, w)
    && (forall e | e in w.s.mem[tm.inst] :: e.value.createdAt >= w.cleaned - cfg.ttl - Lag(tm))
    && (forall r | 0 <= r < |w.s.reqs| && w.s.reqs[r].inst == tm.inst && InHand(w.s.reqs[r].stage) ::
          HandYoung(cfg, w, r))
  }

  predicate HandYoung(cfg: Config, w: Watch, r: nat)
    requires r < |w.s.reqs|
  {
    && r in w.held && w.held[r] <= w.s.now
    && (w.s.reqs[r].stage.Reload? ==> w.held[r] - cfg.ttl < w.s.reqs[r].stage.value.createdAt)
    && (w.s.reqs[r].stage.Stamped? ==> w.s.reqs[r].stage.value.createdAt == w.held[r])
  }

  lemma SetSubset(c: Lru.Cache, maxSize: int, k: CacheKey, v: CacheValue)
    ensures forall e | e in Lru.AfterSet(c, maxSize, k, v) :: e == Lru.Entry(k, v) || e in c
    ensures forall e | e in Lru.AfterGet(c, k) :: e in c
  {
    Lru.WithoutSubset(c, k);
    Lru.LookupIn(c, k);
  }

  /** A value comes in hand from a live row or from the clock. */
  lemma TakenInHand(cfg: Config, s: State, r: nat)
    requires Enabled(cfg, s, Advance(r)) && InHand(Step(cfg, s, r).reqs[r].stage)
    ensures var k, st := s.reqs[r].key, Step(cfg, s, r).reqs[r].stage;
            && (st.Reload? ==> Live(s, k) && st.value.createdAt == s.table[k].createdAt)
            && (st.Stamped? ==> st.value.createdAt == s.now)
  {
  }

  lemma HandsYoung(cfg: Config, tm: Terms, w: Watch, l: Label, r: nat)
    requires Young(cfg, tm, w) && RowsDated(cfg, w.s) && Enabled(cfg, w.s, l)
    requires var u := Observe(cfg, tm, w, l);
             r < |u.s.reqs| && u.s.reqs[r].inst == tm.inst && InHand(u.s.reqs[r].stage)
    ensures HandYoung(cfg, Observe(cfg, tm, w, l), r)
  {
    if l.Advance? && l.r == r {
      TakenInHand(cfg, w.s, r);
    } else {
      assert r < |w.s.reqs| && w.s.reqs[r] == Observe(cfg, tm, w, l).s.reqs[r];
      assert HandYoung(cfg, w, r);
    }
  }

  /** A request's step brings nothing into an LRU but the value it has in hand. */
  lemma StepEntries(cfg: Config, s: State, r: nat, inst: nat)
    requires Enabled(cfg, s, Advance(r)) && inst < |s.mem|
    ensures var t := Step(cfg, s, r);
            |t.mem| == |s.mem| &&
            forall e | e in t.mem[inst] ::
              || e in s.mem[inst]
              || (s.reqs[r].inst == inst && InHand(s.reqs[r].stage) && e == Lru.Entry(s.reqs[r].key, s.reqs[r].stage.value))
  {
    var Req(i, k, st) := s.reqs[r];
    if i == inst && InHand(st) {
      SetSubset(s.mem[i], cfg.maxSize, k, st.value);
    } else if i == inst && st.MemLookup? {
      SetSubset(s.mem[i], cfg.maxSize, k, CacheValue(Payload([], 0, ""), 0));
    } else {
      assert Step(cfg, s, r).mem[inst] == s.mem[inst];
    }
  }

  /** What a step leaves in the watched LRU. */
  lemma EntriesYoung(cfg: Config, tm: Terms, w: Watch, l: Label)
    requires cfg.ttl > 0 && tm.delay >= 0
    requires Young(cfg, tm, w) && Enabled(cfg, w.s, l) && |Next(cfg, w.s, l).mem| == |w.s.mem|
    ensures var u := Observe(cfg, tm, w, l);
            forall e | e in u.s.mem[tm.inst] :: e.value.createdAt >= u.cleaned - cfg.ttl - Lag(tm)
  {
    if l.MemCleanup? {
      Lru.SurvivorsSubset(w.s.mem[tm.inst], l.at - cfg.ttl);
    } else if l.Advance? {
      StepEntries(cfg, w.s, l.r, tm.inst);
      if w.s.reqs[l.r].inst == tm.inst && InHand(w.s.reqs[l.r].stage) {
        assert HandYoung(cfg, w, l.r);
      }
    }
  }

  lemma SizeKept(cfg: Config, s: State, l: Label)
    requires Enabled(cfg, s, l)
    ensures |Next(cfg, s, l).mem| == |s.mem| && s.now <= Next(cfg, s, l).now
  {
  }

  lemma {:induction false} WatchedIsYoung(cfg: Config, tm: Terms, start: int, ls: seq<Label>, u: Watch)
    requires cfg.ttl > 0 && tm.interval >= 0 && tm.delay >= 0 && tm.inst < cfg.instances
    requires WatchedPath(cfg, tm, start, ls, u)
    ensures Young(cfg, tm, u) && RowsDated(cfg, u.s)
    decreases |ls|
  {
    if ls != [] {
      var before, l := ls[..|ls| - 1], ls[|ls| - 1];
      var w :| WatchedPath(cfg, tm, start, before, w) && Enabled(cfg, w.s, l)
        && u == Observe(cfg, tm, w, l) && OnTime(tm, u);
      WatchedIsYoung(cfg, tm, start, before, w);
      SizeKept(cfg, w.s, l);
      EntriesYoung(cfg, tm, w, l);
      forall r | 0 <= r < |u.s.reqs| && u.s.reqs[r].inst == tm.inst && InHand(u.s.reqs[r].stage)
        ensures HandYoung(cfg, u, r)
      {
        HandsYoung(cfg, tm, w, l, r);
      }
      RowsDatedStep(cfg, w.s, l);
    }
  }

  lemma AgeBounded(cfg: Config, tm: Terms)
    requires cfg.ttl > 0 && tm.interval >= 0 && tm.delay >= 0 && tm.inst < cfg.instances
    ensures NeverOlder(cfg, tm, cfg.ttl + tm.interval + Lag(tm))
  {
    forall w, l | Watched(cfg, tm, w) && Enabled(cfg, w.s, l) && IsRequestStep(l) && w.s.reqs[l.r].inst == tm.inst
      ensures Taken(cfg, w.s, l).Some? ==>
                w.s.now - Taken(cfg, w.s, l).value.createdAt <= cfg.ttl + tm.interval + Lag(tm)
    {
      if Taken(cfg, w.s, l).Some? {
        var start, ls :| WatchedPath(cfg, tm, start, ls, w);
        WatchedIsYoung(cfg, tm, start, ls, w);
        TakenAge(cfg, tm, w, l);
      }
    }
  }

  lemma TakenAge(cfg: Config, tm: Terms, w: Watch, l: Label)
    requires Young(cfg, tm, w) && tm.interval >= 0
    requires Enabled(cfg, w.s, l) && IsRequestStep(l) && w.s.reqs[l.r].inst == tm.inst && Taken(cfg, w.s, l).Some?
    ensures w.s.now - Taken(cfg, w.s, l).value.createdAt <= cfg.ttl + tm.interval + Lag(tm)
  {
    var Req(i, k, st) := w.s.reqs[l.r];
    if st.MemLookup? {
      Lru.LookupIn(w.s.mem[i], k);
    } else {
      assert st.Reload?;
      assert HandYoung(cfg, w, l.r);
    }
  }

  // ---- The bound is reached ----

  lemma WatchedStep(cfg: Config, tm: Terms, w: Watch, l: Label)
    requires Watched(cfg, tm, w) && Enabled(cfg, w.s, l) && OnTime(tm, Observe(cfg, tm, w, l))
    ensures Watched(cfg, tm, Observe(cfg, tm, w, l))
  {
    var start, ls :| WatchedPath(cfg, tm, start, ls, w);
    assert (ls + [l])[..|ls|] == ls;
    assert WatchedPath(cfg, tm, start, ls + [l], Observe(cfg, tm, w, l));
  }

  /** A step that takes no time is on time. */
  lemma InstantOnTime(cfg: Config, tm: Terms, w: Watch, l: Label)
    requires OnTime(tm, w) && tm.delay >= 0 && Enabled(cfg, w.s, l) && Next(cfg, w.s, l).now == w.s.now
    ensures OnTime(tm, Observe(cfg, tm, w, l))
  {
    var u := Observe(cfg, tm, w, l);
    forall r | 0 <= r < |u.s.reqs| && u.s.reqs[r].inst == tm.inst && InHand(u.s.reqs[r].stage)
      ensures r in u.held && u.s.now <= u.held[r] + tm.delay
    {
      if !(l.Advance? && l.r == r) {
        assert r < |w.s.reqs| && w.s.reqs[r] == u.s.reqs[r];
      }
    }
  }

  /** A run that takes no time can be watched. */
  lemma {:induction false} Instant(cfg: Config, tm: Terms, w: Watch, ls: seq<Label>, t: State) returns (u: Watch)
    requires Watched(cfg, tm, w) && OnTime(tm, w) && tm.delay >= 0 && w.cleaned <= w.s.now
    requires Path(cfg, w.s, ls, t) && t.now == w.s.now
    ensures Watched(cfg, tm, u) && OnTime(tm, u) && u.s == t && w.cleaned <= u.cleaned <= t.now
    decreases |ls|
  {
    if ls == [] {
      u := w;
    } else {
      var v := Observe(cfg, tm, w, ls[0]);
      SizeKept(cfg, w.s, ls[0]);
      PathNow(cfg, v.s, ls[1..], t);
      InstantOnTime(cfg, tm, w, ls[0]);
      WatchedStep(cfg, tm, w, ls[0]);
      u := Instant(cfg, tm, v, ls[1..], t);
    }
  }

  lemma {:induction false} SurvivorsTwice(c: Lru.Cache, a: int, b: int)
    requires a <= b
    ensures Lru.Survivors(Lru.Survivors(c, a), b) == Lru.Survivors(c, b)
  {
    if c != [] {
      SurvivorsTwice(c[1..], a, b);
    }
  }

  /** d ticks later, the watched instance cleaned and nothing else done. */
  function Later(cfg: Config, tm: Terms, s: State, d: nat): State
    requires tm.inst < |s.mem|
  {
    if d == 0 then s
    else s.(now := s.now + d, mem := s.mem[tm.inst := Lru.Survivors(s.mem[tm.inst], s.now + d - cfg.ttl)])
  }

  /** A watched run whose instance has just been cleaned. */
  ghost predicate Clean(cfg: Config, tm: Terms, w: Watch) {
    Watched(cfg, tm, w) && OnTime(tm, w) && w.cleaned == w.s.now && tm.inst < |w.s.mem|
  }

  /** What is in hand may wait d ticks more. */
  ghost predicate HandsFor(tm: Terms, w: Watch, d: nat) {
    forall r | 0 <= r < |w.s.reqs| && w.s.reqs[r].inst == tm.inst && InHand(w.s.reqs[r].stage) ::
      r in w.held && w.s.now + d <= w.held[r] + tm.delay
  }

  /** One tick, and the watched instance's cleanup. */
  lemma TickAndClean(cfg: Config, tm: Terms, w: Watch) returns (u: Watch)
    requires Clean(cfg, tm, w) && tm.interval > 0 && HandsFor(tm, w, 1)
    ensures Clean(cfg, tm, u) && u.s == Later(cfg, tm, w.s, 1) && u.held == w.held
  {
    var x := Observe(cfg, tm, w, Tick(1));
    WatchedStep(cfg, tm, w, Tick(1));
    u := Observe(cfg, tm, x, MemCleanup(tm.inst, x.s.now));
    WatchedStep(cfg, tm, x, MemCleanup(tm.inst, x.s.now));
  }

  lemma HandsLater(cfg: Config, tm: Terms, w: Watch, v: Watch, d: nat)
    requires tm.inst < |w.s.mem| && v.s == Later(cfg, tm, w.s, d) && v.held == w.held && HandsFor(tm, w, d + 1)
    ensures HandsFor(tm, v, 1)
  {
  }

  lemma HandsSooner(tm: Terms, w: Watch, d: nat)
    requires HandsFor(tm, w, d + 1)
    ensures HandsFor(tm, w, d)
  {
  }

  /** From w, d ticks have passed in this way. */
  ghost predicate Passed(cfg: Config, tm: Terms, w: Watch, d: nat, u: Watch)
    requires tm.inst < |w.s.mem|
  {
    Clean(cfg, tm, u) && u.s == Later(cfg, tm, w.s, d) && u.held == w.held
  }

  lemma PassTick(cfg: Config, tm: Terms, w: Watch, d: nat, v: Watch) returns (u: Watch)
    requires Clean(cfg, tm, w) && tm.interval > 0 && HandsFor(tm, w, d + 1) && Passed(cfg, tm, w, d, v)
    ensures Passed(cfg, tm, w, d + 1, u)
  {
    HandsLater(cfg, tm, w, v, d);
    u := TickAndClean(cfg, tm, v);
    LaterOnce(cfg, tm, w.s, d);
  }

  lemma NoTime(cfg: Config, tm: Terms, w: Watch)
    requires Clean(cfg, tm, w)
    ensures Passed(cfg, tm, w, 0, w)
  {
  }

  lemma {:induction false} PassTime(cfg: Config, tm: Terms, w: Watch, d: nat) returns (u: Watch)
    requires Clean(cfg, tm, w) && tm.interval > 0 && HandsFor(tm, w, d)
    ensures Passed(cfg, tm, w, d, u)
  {
    if d == 0 {
      u := w;
      NoTime(cfg, tm, w);
    } else {
      HandsSooner(tm, w, d - 1);
      u := PassTime(cfg, tm, w, d - 1);
      u := PassTick(cfg, tm, w, d - 1, u);
    }
  }

  lemma LaterOnce(cfg: Config, tm: Terms, s: State, d: nat)
    requires tm.inst < |s.mem|
    ensures Later(cfg, tm, Later(cfg, tm, s, d), 1) == Later(cfg, tm, s, d + 1)
  {
    if d > 0 {
      SurvivorsTwice(s.mem[tm.inst], s.now + d - cfg.ttl, s.now + d + 1 - cfg.ttl);
      assert Later(cfg, tm, Later(cfg, tm, s, d), 1).mem == Later(cfg, tm, s, d + 1).mem;
    }
  }

  /** A request alone that hits an entry one interval after the last cleanup. */
  lemma LateHit(cfg: Config, tm: Terms, w: Watch, k: CacheKey, v: CacheValue) returns (u: Watch, l: Label)
    requires Watched(cfg, tm, w) && OnTime(tm, w) && w.cleaned == w.s.now && tm.interval > 0 && tm.delay >= 0
    requires Idle(cfg, w.s, tm.inst, k) && Lru.Lookup(w.s.mem[tm.inst], k) == Some(v)
    requires forall r | 0 <= r < |w.s.reqs| :: w.s.reqs[r].stage.Done?
    ensures Watched(cfg, tm, u) && Enabled(cfg, u.s, l) && IsRequestStep(l) && u.s.reqs[l.r].inst == tm.inst
    ensures Taken(cfg, u.s, l) == Some(v) && u.s.now == w.s.now + tm.interval
  {
    var x := Observe(cfg, tm, w, Tick(tm.interval));
    WatchedStep(cfg, tm, w, Tick(tm.interval));
    u, l := x, Advance(|x.s.reqs|);
    var ls := Begin(cfg, x.s, tm.inst, k);
    u := Instant(cfg, tm, x, ls, With(cfg, x.s, tm.inst, k, MemLookup));
  }

  /** Requests can be served at the watched instance, one at a time. */
  predicate Serves(cfg: Config, tm: Terms) {
    && cfg.ttl > 0 && tm.inst < cfg.instances && cfg.admitted > 0 && (cfg.pool <= 0 || cfg.pool > 1)
    && tm.interval > 0 && tm.delay >= 0
  }

  ghost predicate Quiet(cfg: Config, tm: Terms, w: Watch) {
    && Watched(cfg, tm, w) && OnTime(tm, w) && w.cleaned == w.s.now && |w.s.mem| == cfg.instances
    && w.s.locks == map[] && forall r | 0 <= r < |w.s.reqs| :: w.s.reqs[r].stage.Done?
  }

  lemma QuietIdle(cfg: Config, tm: Terms, w: Watch, k: CacheKey)
    requires Serves(cfg, tm) && Quiet(cfg, tm, w)
    ensures Idle(cfg, w.s, tm.inst, k)
  {
    NothingUsed(w.s.reqs, tm.inst);
  }

  lemma StartQuiet(cfg: Config, tm: Terms)
    requires Serves(cfg, tm)
    ensures Quiet(cfg, tm, Start(cfg, 0))
  {
    assert WatchedPath(cfg, tm, 0, [], Start(cfg, 0));
  }

  lemma FirstEntry(cfg: Config, tm: Terms, k: CacheKey, p: Payload) returns (w: Watch)
    requires Serves(cfg, tm)
    ensures Quiet(cfg, tm, w) && w.s.now == 0 && w.s.mem[tm.inst] == [Lru.Entry(k, CacheValue(p, 0))]
  {
    w := Start(cfg, 0);
    StartQuiet(cfg, tm);
    QuietIdle(cfg, tm, w, k);
    var ls := AlonePath(cfg, w.s, tm.inst, k, Some(p));
    w := Instant(cfg, tm, w, ls, Alone(cfg, w.s, tm.inst, k, Some(p)));
  }

  /** A fresh entry survives until its last cleanup at age ttl, and is hit one interval later. */
  lemma OldHit(cfg: Config, tm: Terms, k: CacheKey, p: Payload) returns (u: Watch, l: Label)
    requires Serves(cfg, tm)
    ensures Watched(cfg, tm, u) && Enabled(cfg, u.s, l) && IsRequestStep(l) && u.s.reqs[l.r].inst == tm.inst
    ensures Taken(cfg, u.s, l) == Some(CacheValue(p, 0)) && u.s.now == cfg.ttl + tm.interval
  {
    var v := CacheValue(p, 0);
    var w := FirstEntry(cfg, tm, k, p);
    w := PassTime(cfg, tm, w, cfg.ttl);
    SurvivorsOne(Lru.Entry(k, v), 0);
    assert w.s.mem[tm.inst] == [Lru.Entry(k, v)];
    QuietIdle(cfg, tm, w, k);
    u, l := LateHit(cfg, tm, w, k, v);
  }

  lemma SurvivorsOne(e: Lru.Entry, before: int)
    ensures Lru.Survivors([e], before) == if e.value.createdAt < before then [] else [e]
  {
    assert [e][1..] == [];
  }

  lemma LaterWith(cfg: Config, tm: Terms, s: State, k: CacheKey, st: Stage, d: nat)
    requires tm.inst < |s.mem|
    ensures Later(cfg, tm, With(cfg, s, tm.inst, k, st), d) == With(cfg, Later(cfg, tm, s, d), tm.inst, k, st)
  {
  }

  /** A run that has written its result to the LRU and not yet computed its row's expiry. */
  lemma Writer(cfg: Config, tm: Terms, k: CacheKey, p: Payload) returns (w: Watch, c: State)
    requires Serves(cfg, tm)
    ensures Watched(cfg, tm, w) && OnTime(tm, w) && w.cleaned == w.s.now == c.now == 0
    ensures w.s == With(cfg, c, tm.inst, k, InMemory(p)) && Idle(cfg, c, tm.inst, k)
    ensures c.reqs == [] && c.locks == map[] && c.table == map[] && |c.mem| == cfg.instances
    ensures c.mem[tm.inst] == [Lru.Entry(k, CacheValue(p, 0))]
  {
    var i, v := tm.inst, CacheValue(p, 0);
    w := Start(cfg, 0);
    StartQuiet(cfg, tm);
    QuietIdle(cfg, tm, w, k);
    var s := w.s;
    var b := s.(runs := s.runs + [Run(k, Some(p))], answers := s.answers + [Answer(k, p, false)]);
    var ls := StampPath(cfg, s, i, k, p);
    ls := WritePath(cfg, s, ls, b, i, k, v);
    c := b.(mem := b.mem[i := Lru.AfterSet(b.mem[i], cfg.maxSize, k, v)]);
    w := Instant(cfg, tm, w, ls, With(cfg, c, i, k, InMemory(p)));
  }

  /** A run whose LRU entry is cleaned away before its row is inserted. */
  lemma LateWriter(cfg: Config, tm: Terms, k: CacheKey, p: Payload) returns (w: Watch, d: State)
    requires Serves(cfg, tm)
    ensures Watched(cfg, tm, w) && OnTime(tm, w) && w.cleaned == w.s.now == d.now == cfg.ttl + 1
    ensures w.s == With(cfg, d, tm.inst, k, InMemory(p)) && Idle(cfg, d, tm.inst, k)
    ensures d.reqs == [] && d.locks == map[] && d.table == map[] && |d.mem| == cfg.instances && d.mem[tm.inst] == []
  {
    var c;
    w, c := Writer(cfg, tm, k, p);
    w := PassTime(cfg, tm, w, cfg.ttl + 1);
    d := Later(cfg, tm, c, cfg.ttl + 1);
    LaterWith(cfg, tm, c, k, InMemory(p), cfg.ttl + 1);
    SurvivorsOne(Lru.Entry(k, CacheValue(p, 0)), 1);
  }

  lemma LateRow(cfg: Config, tm: Terms, k: CacheKey, p: Payload) returns (w: Watch)
    requires Serves(cfg, tm)
    ensures Quiet(cfg, tm, w) && w.s.now == cfg.ttl + 1 && w.s.mem[tm.inst] == []
    ensures k in w.s.table && w.s.table[k] == Row(p, w.s.now, w.s.now + cfg.ttl)
  {
    var d;
    w, d := LateWriter(cfg, tm, k, p);
    assert Path(cfg, w.s, [], w.s);
    var ls := CreatePath(cfg, w.s, [], d, tm.inst, k, p);
    ls := StoreTail(cfg, w.s, ls, d, tm.inst, k, p);
    w := Instant(cfg, tm, w, ls, With(cfg, Insert(d, k, Row(p, d.now, d.now + cfg.ttl)), tm.inst, k, Done));
  }

  /** A reload that has found its row in its last tick. */
  lemma LastTickReload(cfg: Config, tm: Terms, k: CacheKey, p: Payload) returns (w: Watch, s: State, v: CacheValue)
    requires Serves(cfg, tm)
    ensures Watched(cfg, tm, w) && OnTime(tm, w) && w.cleaned == w.s.now && w.s == With(cfg, s, tm.inst, k, Reload(v))
    ensures Idle(cfg, s, tm.inst, k) && s.mem[tm.inst] == [] && s.locks == map[] && |s.mem| == cfg.instances
    ensures forall r | 0 <= r < |s.reqs| :: s.reqs[r].stage.Done?
    ensures |s.reqs| in w.held && w.held[|s.reqs|] == s.now && s.now - v.createdAt == cfg.ttl - 1
  {
    var i := tm.inst;
    w := LateRow(cfg, tm, k, p);
    v := CacheValue(p, w.s.now);
    w := PassTime(cfg, tm, w, cfg.ttl - 1);
    s := w.s;
    assert s.mem[i] == [] && Live(s, k);
    QuietIdle(cfg, tm, w, k);
    var ls := MissPath(cfg, s, i, k);
    w := Instant(cfg, tm, w, ls, With(cfg, s, i, k, DbQuery));
    Lone(cfg, s, i, k, DbQuery);
    InstantOnTime(cfg, tm, w, Advance(|s.reqs|));
    WatchedStep(cfg, tm, w, Advance(|s.reqs|));
    w := Observe(cfg, tm, w, Advance(|s.reqs|));
  }

  /** The reload's LRU write and commit. */
  lemma ReloadEnd(cfg: Config, d: State, i: nat, k: CacheKey, v: CacheValue) returns (ls: seq<Label>, t: State)
    requires Idle(cfg, d, i, k) && d.mem[i] == []
    ensures Path(cfg, With(cfg, d, i, k, Reload(v)), ls, t) && t.now == d.now
    ensures t.reqs == d.reqs + [Req(i, k, Done)] && t.locks == d.locks && t.mem == d.mem[i := [Lru.Entry(k, v)]]
  {
    var s := With(cfg, d, i, k, Reload(v));
    Lone(cfg, d, i, k, Reload(v));
    assert Path(cfg, s, [], s);
    PathSnoc(cfg, s, [], s, Advance(|d.reqs|));
    var e := d.(mem := d.mem[i := Lru.AfterSet(d.mem[i], cfg.maxSize, k, v)]);
    assert Next(cfg, s, Advance(|d.reqs|)) == With(cfg, e, i, k, Replay(v));
    ls := ReplayTail(cfg, s, [] + [Advance(|d.reqs|)], e, i, k, v);
    t := With(cfg, e.(answers := e.answers + [Answer(k, v.payload, true)]), i, k, Done);
    assert Lru.AfterSet([], cfg.maxSize, k, v) == [Lru.Entry(k, v)];
  }

  /** A reload that takes its row just before it expires and writes it as late as allowed. */
  lemma StalledReload(cfg: Config, tm: Terms, k: CacheKey, p: Payload) returns (w: Watch, v: CacheValue)
    requires Serves(cfg, tm)
    ensures Quiet(cfg, tm, w) && w.s.mem[tm.inst] == [Lru.Entry(k, v)]
    ensures w.s.now - v.createdAt == cfg.ttl - 1 + tm.delay
  {
    var s;
    w, s, v := LastTickReload(cfg, tm, k, p);
    w := PassTime(cfg, tm, w, tm.delay);
    var d := Later(cfg, tm, s, tm.delay);
    LaterWith(cfg, tm, s, k, Reload(v), tm.delay);
    var ls, t := ReloadEnd(cfg, d, tm.inst, k, v);
    w := Instant(cfg, tm, w, ls, t);
  }

  /** The oldest response an instance can take for a replay: exactly this old, and never older. */
  lemma AgeExactly(cfg: Config, tm: Terms, bound: int)
    requires Serves(cfg, tm)
    ensures NeverOlder(cfg, tm, bound) <==> bound >= cfg.ttl + tm.interval + Lag(tm)
  {
    AgeBounded(cfg, tm);
    var k, p := CacheKey("", "", "", ""), Payload([], 200, "");
    if tm.delay <= 1 {
      var u, l := OldHit(cfg, tm, k, p);
      assert NeverOlder(cfg, tm, bound) ==> u.s.now - Taken(cfg, u.s, l).value.createdAt <= bound;
    } else {
      var w, v := StalledReload(cfg, tm, k, p);
      QuietIdle(cfg, tm, w, k);
      var u, l := LateHit(cfg, tm, w, k, v);
      assert NeverOlder(cfg, tm, bound) ==> u.s.now - Taken(cfg, u.s, l).value.createdAt <= bound;
    }
  }

  /** The bound without a delay holds exactly when a value in hand is written within one tick. */
  lemma PromptExactly(cfg: Config, tm: Terms)
    requires Serves(cfg, tm)
    ensures NeverOlder(cfg, tm, cfg.ttl + tm.interval) <==> tm.delay <= 1
  {
    AgeExactly(cfg, tm, cfg.ttl + tm.interval);
  }
}
