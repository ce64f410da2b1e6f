/**
  Progress of the idempotency protocol under its connection pools: no deadlock exactly when an
  instance admits fewer idempotent requests than it has connections, and termination by a ranking.
 */
module Liveness {
  import opened Common
  import opened Protocol
  import opened Safety

  function Rank(st: Stage): nat {
    match st
    case Arrived => 16
    case AwaitLock => 15
    case MemLookup => 14
    case DbWait => 13
    case DbQuery => 12
    case RunWait => 11
    case Running => 10
    case Produced(_) => 9
    case Stamped(_) => 8
    case InMemory(_) => 7
    case Expiring(_, _) => 6
    case CreateWait(_, _, _) => 5
    case Creating(_, _, _) => 4
    case Reload(_) => 3
    case Replay(_) => 2
    case Sending(_) => 1
    case Created => 1
    case Done => 0
  }

  /** The request steps still to come, at most. */
  function Work(reqs: seq<Req>): nat {
    if reqs == [] then 0 else Work(reqs[..|reqs| - 1]) + Rank(reqs[|reqs| - 1].stage)
  }

  function RequestSteps(ls: seq<Label>): nat {
    if ls == [] then 0 else (if IsRequestStep(ls[0]) then 1 else 0) + RequestSteps(ls[1..])
  }

  predicate AllDone(s: State) {
    forall r | 0 <= r < |s.reqs| :: s.reqs[r].stage.Done?
  }

  ghost predicate SomeRequestStep(cfg: Config, s: State) {
    exists l :: IsRequestStep(l) && Enabled(cfg, s, l)
  }

  ghost predicate Admitted(cfg: Config, s: State) {
    forall i :: Active(s.reqs, i) <= cfg.admitted
  }

  // ---- Sums over the requests ----

  lemma {:induction false} SumsUpdate(reqs: seq<Req>, r: nat, st: Stage, i: nat)
    requires r < |reqs|
    ensures var was, now := reqs[r], reqs[r].(stage := st);
            && Work(reqs[r := now]) + Rank(was.stage) == Work(reqs) + Rank(st)
            && Used(reqs[r := now], i) + (if was.inst == i then Conns(was.stage) else 0) ==
               Used(reqs, i) + (if was.inst == i then Conns(st) else 0)
            && Active(reqs[r := now], i) + (if was.inst == i && !was.stage.Done? then 1 else 0) ==
               Active(reqs, i) + (if was.inst == i && !st.Done? then 1 else 0)
  {
    var n, now := |reqs| - 1, reqs[r].(stage := st);
    if r == n {
      assert reqs[r := now][..n] == reqs[..n];
    } else {
      assert reqs[r := now][..n] == reqs[..n][r := now];
      SumsUpdate(reqs[..n], r, st, i);
    }
  }

  lemma SumsAppend(reqs: seq<Req>, q: Req, i: nat)
    ensures Used(reqs + [q], i) == Used(reqs, i) + if q.inst == i then Conns(q.stage) else 0
    ensures Active(reqs + [q], i) == Active(reqs, i) + if q.inst == i && !q.stage.Done? then 1 else 0
  {
    assert (reqs + [q])[..|reqs|] == reqs;
  }

  lemma {:induction false} UsedAtMostActive(reqs: seq<Req>, i: nat)
    requires forall r | 0 <= r < |reqs| :: Conns(reqs[r].stage) <= 1
    ensures Used(reqs, i) <= Active(reqs, i)
  {
    if reqs != [] {
      UsedAtMostActive(reqs[..|reqs| - 1], i);
    }
  }

  lemma {:induction false} NothingUsed(reqs: seq<Req>, i: nat)
    requires forall r | 0 <= r < |reqs| :: reqs[r].stage.Done?
    ensures Used(reqs, i) == 0 && Active(reqs, i) == 0 && Work(reqs) == 0
  {
    if reqs != [] {
      NothingUsed(reqs[..|reqs| - 1], i);
    }
  }

  // ---- Invariants of the pools ----

  lemma RequestStepEffect(cfg: Config, s: State, l: Label)
    requires Enabled(cfg, s, l) && IsRequestStep(l)
    ensures l.r < |s.reqs| && !s.reqs[l.r].stage.Done?
    ensures var t := Next(cfg, s, l);
            |t.reqs| == |s.reqs| && t.reqs == s.reqs[l.r := s.reqs[l.r].(stage := t.reqs[l.r].stage)]
  {
  }

  lemma LookupRankFalls(cfg: Config, s: State, r: nat)
    requires Enabled(cfg, s, Advance(r)) && Rank(s.reqs[r].stage) > 11
    ensures Rank(Step(cfg, s, r).reqs[r].stage) < Rank(s.reqs[r].stage)
  {
  }

  lemma StoreRankFalls(cfg: Config, s: State, r: nat)
    requires Enabled(cfg, s, Advance(r)) && Rank(s.reqs[r].stage) <= 11
    ensures Rank(Step(cfg, s, r).reqs[r].stage) < Rank(s.reqs[r].stage)
  {
  }

  lemma RankFalls(cfg: Config, s: State, l: Label)
    requires Enabled(cfg, s, l) && IsRequestStep(l)
    ensures Rank(Next(cfg, s, l).reqs[l.r].stage) < Rank(s.reqs[l.r].stage)
  {
    if l.Advance? {
      if Rank(s.reqs[l.r].stage) > 11 {
        LookupRankFalls(cfg, s, l.r);
      } else {
        StoreRankFalls(cfg, s, l.r);
      }
    }
  }

  lemma LookupConnection(cfg: Config, s: State, r: nat)
    requires Enabled(cfg, s, Advance(r)) && Rank(s.reqs[r].stage) > 11
    ensures var was, st := s.reqs[r].stage, Step(cfg, s, r).reqs[r].stage;
            Conns(st) > Conns(was) ==> CanTake(cfg, s, s.reqs[r].inst) && Conns(st) == Conns(was) + 1
  {
  }

  /** A step takes at most one connection, and only when its instance has one free. */
  lemma ConnectionTaken(cfg: Config, s: State, l: Label)
    requires Enabled(cfg, s, l) && IsRequestStep(l)
    ensures var was, st := s.reqs[l.r].stage, Next(cfg, s, l).reqs[l.r].stage;
            Conns(st) > Conns(was) ==> CanTake(cfg, s, s.reqs[l.r].inst) && Conns(st) == Conns(was) + 1
  {
    if l.Advance? && Rank(s.reqs[l.r].stage) > 11 {
      LookupConnection(cfg, s, l.r);
    }
  }

  lemma PoolsStep(cfg: Config, s: State, l: Label, i: nat)
    requires Enabled(cfg, s, l)
    requires Active(s.reqs, i) <= cfg.admitted && (cfg.pool > 0 ==> Used(s.reqs, i) <= cfg.pool)
    ensures var t := Next(cfg, s, l);
            Active(t.reqs, i) <= cfg.admitted && (cfg.pool > 0 ==> Used(t.reqs, i) <= cfg.pool)
  {
    if IsRequestStep(l) {
      RequestStepEffect(cfg, s, l);
      ConnectionTaken(cfg, s, l);
      SumsUpdate(s.reqs, l.r, Next(cfg, s, l).reqs[l.r].stage, i);
    } else if l.Arrive? {
      SumsAppend(s.reqs, Req(l.inst, l.key, Arrived), i);
    }
  }

  lemma {:induction false} PoolsPath(cfg: Config, s: State, ls: seq<Label>, t: State, i: nat)
    requires Path(cfg, s, ls, t)
    requires Active(s.reqs, i) <= cfg.admitted && (cfg.pool > 0 ==> Used(s.reqs, i) <= cfg.pool)
    ensures Active(t.reqs, i) <= cfg.admitted && (cfg.pool > 0 ==> Used(t.reqs, i) <= cfg.pool)
    decreases |ls|
  {
    if ls != [] {
      PoolsStep(cfg, s, ls[0], i);
      PoolsPath(cfg, Next(cfg, s, ls[0]), ls[1..], t, i);
    }
  }

  /** No instance ever exceeds its connection limit or its admission bound. */
  lemma PoolsRespected(cfg: Config, t: State, i: nat)
    requires Reachable(cfg, t)
    ensures Active(t.reqs, i) <= cfg.admitted
    ensures cfg.pool > 0 ==> Used(t.reqs, i) <= cfg.pool
  {
    var start, ls :| Path(cfg, Init(cfg, start), ls, t);
    PoolsPath(cfg, Init(cfg, start), ls, t, i);
  }

  // ---- Deadlock ----

  /** A request waiting for its second connection gets it while fewer requests are admitted than connections exist. */
  lemma Progress(cfg: Config, s: State, r: nat)
    requires Inv(cfg, s) && Admitted(cfg, s) && (cfg.pool <= 0 || cfg.admitted < cfg.pool)
    requires r < |s.reqs| && !s.reqs[r].stage.Done?
    ensures SomeRequestStep(cfg, s)
  {
    if q :| 0 <= q < |s.reqs| && s.reqs[q].stage.Running? {
      assert Enabled(cfg, s, Finish(q, None));
    } else if q :| 0 <= q < |s.reqs| && Conns(s.reqs[q].stage) == 2 {
      assert Enabled(cfg, s, Advance(q));
    } else {
      UsedAtMostActive(s.reqs, s.reqs[r].inst);
      if q :| 0 <= q < |s.reqs| && Holds(s.reqs[q].stage) {
        UsedAtMostActive(s.reqs, s.reqs[q].inst);
        assert Enabled(cfg, s, Advance(q));
      } else {
        assert Enabled(cfg, s, Advance(r));
      }
    }
  }

  ghost predicate DeadlockFree(cfg: Config) {
    forall s :: Reachable(cfg, s) && !AllDone(s) ==> SomeRequestStep(cfg, s)
  }

  lemma BelowPoolIsDeadlockFree(cfg: Config)
    requires cfg.pool <= 0 || cfg.admitted < cfg.pool
    ensures DeadlockFree(cfg)
  {
    forall s | Reachable(cfg, s) && !AllDone(s)
      ensures SomeRequestStep(cfg, s)
    {
      ReachableInv(cfg, s);
      forall i: nat
        ensures Active(s.reqs, i) <= cfg.admitted
      {
        PoolsRespected(cfg, s, i);
      }
      var r :| 0 <= r < |s.reqs| && !s.reqs[r].stage.Done?;
      Progress(cfg, s, r);
    }
  }

  lemma ReachableStep(cfg: Config, s: State, l: Label)
    requires Reachable(cfg, s) && Enabled(cfg, s, l)
    ensures Reachable(cfg, Next(cfg, s, l))
  {
    assert [l][1..] == [];
    assert Path(cfg, Next(cfg, s, l), [], Next(cfg, s, l));
    assert Path(cfg, s, [l], Next(cfg, s, l));
    ReachableExtend(cfg, s, [l], Next(cfg, s, l));
  }

  /** n requests for one key at instance 0, all inside pg_advisory_xact_lock. */
  function Queue(cfg: Config, k: CacheKey, n: nat): State {
    Init(cfg, 0).(reqs := seq(n, _ => Req(0, k, AwaitLock)))
  }

  lemma {:induction false} QueueSums(cfg: Config, k: CacheKey, n: nat)
    ensures Used(Queue(cfg, k, n).reqs, 0) == n == Active(Queue(cfg, k, n).reqs, 0)
  {
    if n > 0 {
      assert Queue(cfg, k, n).reqs[..n - 1] == Queue(cfg, k, n - 1).reqs;
      QueueSums(cfg, k, n - 1);
    }
  }

  lemma {:induction false} QueueReachable(cfg: Config, k: CacheKey, n: nat)
    requires cfg.instances > 0 && n <= cfg.admitted && 0 < cfg.pool && n <= cfg.pool
    ensures Reachable(cfg, Queue(cfg, k, n))
  {
    if n == 0 {
      assert Queue(cfg, k, 0) == Init(cfg, 0);
      assert Path(cfg, Init(cfg, 0), [], Queue(cfg, k, 0));
    } else {
      var s := Queue(cfg, k, n - 1);
      QueueReachable(cfg, k, n - 1);
      QueueSums(cfg, k, n - 1);
      var t := Next(cfg, s, Arrive(0, k));
      SumsAppend(s.reqs, Req(0, k, Arrived), 0);
      var u := Next(cfg, t, Advance(n - 1));
      assert u.reqs == Queue(cfg, k, n).reqs;
      ReachableStep(cfg, s, Arrive(0, k));
      ReachableStep(cfg, t, Advance(n - 1));
    }
  }

  /** With as many admitted requests as connections, all of them can hold one while the lock's owner waits for its second. */
  lemma FullPoolDeadlocks(cfg: Config, k: CacheKey)
    requires cfg.instances > 0 && 0 < cfg.pool <= cfg.admitted
    ensures !DeadlockFree(cfg)
  {
    var n := cfg.pool as nat;
    var s := Queue(cfg, k, n);
    QueueReachable(cfg, k, n);
    QueueSums(cfg, k, n);
    ReachableStep(cfg, s, Advance(0));
    var t := Next(cfg, s, Advance(0));
    SumsUpdate(s.reqs, 0, MemLookup, 0);
    ReachableStep(cfg, t, Advance(0));
    var u := Next(cfg, t, Advance(0));
    SumsUpdate(t.reqs, 0, DbWait, 0);
    assert u.reqs[0] == Req(0, k, DbWait) && LockOf(cfg, k) in u.locks;
    assert forall r | 0 < r < n :: u.reqs[r] == Req(0, k, AwaitLock);
    assert !SomeRequestStep(cfg, u);
    assert !AllDone(u);
  }

  /** The pool cannot deadlock exactly when it is unlimited or larger than the number of admitted requests. */
  lemma DeadlockFreeExactly(cfg: Config)
    requires cfg.instances > 0
    ensures DeadlockFree(cfg) <==> cfg.pool <= 0 || cfg.admitted < cfg.pool
  {
    if cfg.pool <= 0 || cfg.admitted < cfg.pool {
      BelowPoolIsDeadlockFree(cfg);
    } else {
      FullPoolDeadlocks(cfg, CacheKey("", "", "", ""));
    }
  }

  // ---- Termination ----

  lemma {:induction false} PathWork(cfg: Config, s: State, ls: seq<Label>, t: State)
    requires Path(cfg, s, ls, t) && forall l | l in ls :: !l.Arrive?
    ensures RequestSteps(ls) + Work(t.reqs) <= Work(s.reqs)
    decreases |ls|
  {
    if ls != [] {
      var l, u := ls[0], Next(cfg, s, ls[0]);
      assert l in ls;
      if IsRequestStep(l) {
        RequestStepEffect(cfg, s, l);
        RankFalls(cfg, s, l);
        SumsUpdate(s.reqs, l.r, u.reqs[l.r].stage, 0);
      }
      PathWork(cfg, u, ls[1..], t);
    }
  }
}
