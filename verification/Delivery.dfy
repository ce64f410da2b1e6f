/**
  A replay is sent after its request has committed and freed the lock. What that gap allows on a
  single instance, and when it allows nothing.
 */
module Delivery {
  import opened Common
  import opened Protocol
  import opened Safety
  import opened Execution
  import opened Liveness
  import opened Sequential
  import opened Transparency
  import Lru

  /** In every run, whatever is sent for a key while a row of it lives is the row's response. */
  ghost predicate AlwaysTheRows(cfg: Config) {
    forall s, k | Reachable(cfg, s) && Live(s, k) :: AnswersStayTheRows(cfg, s, k)
  }

  // ---- A replay that stalls between its commit and its sending ----

  /** The first run's row has expired; its LRU entry is still there. */
  lemma Outlived(cfg: Config, k: CacheKey, p: Payload) returns (s: State)
    requires cfg.instances > 0 && cfg.ttl > 0 && cfg.admitted > 0 && (cfg.pool <= 0 || cfg.pool > 1)
    ensures Reachable(cfg, s) && Idle(cfg, s, 0, k) && s.reqs == [Req(0, k, Done)] && s.locks == map[]
    ensures s.now == cfg.ttl + 1 && s.table == map[k := Row(p, 0, cfg.ttl)] && |s.mem| == cfg.instances
    ensures Lru.Lookup(s.mem[0], k) == Some(CacheValue(p, 0))
  {
    var s1 := FirstRun(cfg, k, p);
    ReachableStep(cfg, s1, Tick(cfg.ttl + 1));
    s := Next(cfg, s1, Tick(cfg.ttl + 1));
    NothingUsed(s.reqs, 0);
  }

  /** The first response of k has been committed for a replay after its row expired, and is on its way. */
  lemma StalledSender(cfg: Config, k: CacheKey, p: Payload) returns (s: State)
    requires cfg.instances > 0 && cfg.ttl > 0 && cfg.admitted > 0 && (cfg.pool <= 0 || cfg.pool > 1)
    ensures Reachable(cfg, s) && s.reqs == [Req(0, k, Done), Req(0, k, Sending(p))] && s.locks == map[]
    ensures s.now == cfg.ttl + 1 && s.table == map[k := Row(p, 0, cfg.ttl)] && |s.mem| == cfg.instances
    ensures Lru.Lookup(s.mem[0], k) == Some(CacheValue(p, 0))
  {
    var s1 := Outlived(cfg, k, p);
    ReachableInv(cfg, s1);
    var ls := HitSendPath(cfg, s1, 0, k);
    s := With(cfg, s1.(mem := s1.mem[0 := Lru.AfterGet(s1.mem[0], k)]), 0, k, Sending(p));
    ReachableExtend(cfg, s1, ls, s);
    Lru.GetLookup(s1.mem[0], k, k);
    assert [Req(0, k, Done)] + [Req(0, k, Sending(p))] == [Req(0, k, Done), Req(0, k, Sending(p))];
  }

  /** Both cleanups then take the old response away. */
  lemma CleanedUnderSender(cfg: Config, k: CacheKey, p: Payload) returns (s: State)
    requires cfg.instances > 0 && cfg.ttl > 0 && cfg.admitted > 0 && (cfg.pool <= 0 || cfg.pool > 1)
    ensures Reachable(cfg, s) && s.reqs == [Req(0, k, Done), Req(0, k, Sending(p))] && s.locks == map[]
    ensures |s.mem| == cfg.instances && k !in s.table && Lru.Lookup(s.mem[0], k).None?
  {
    var s1 := StalledSender(cfg, k, p);
    ReachableInv(cfg, s1);
    Lru.DeleteOldLookup(s1.mem[0], 1, k);
    ReachableStep(cfg, s1, MemCleanup(0, s1.now));
    var s2 := Next(cfg, s1, MemCleanup(0, s1.now));
    ReachableStep(cfg, s2, DbCleanup);
    s := Next(cfg, s2, DbCleanup);
  }

  /** The key is run again and has a new live row, while the first response is still to be sent. */
  lemma SentUnderNewRow(cfg: Config, k: CacheKey, p: Payload, q: Payload) returns (s: State)
    requires cfg.instances > 0 && cfg.ttl > 0 && cfg.admitted > 1 && (cfg.pool <= 0 || cfg.pool > 1)
    ensures Reachable(cfg, s) && Live(s, k) && s.table[k].payload == q
    ensures |s.reqs| == 3 && s.reqs[1] == Req(0, k, Sending(p))
  {
    var s1 := CleanedUnderSender(cfg, k, p);
    var first := [Req(0, k, Done)];
    assert s1.reqs == first + [Req(0, k, Sending(p))];
    SumsAppend(first, Req(0, k, Sending(p)), 0);
    NothingUsed(first, 0);
    var ls := AlonePath(cfg, s1, 0, k, Some(q));
    s := Alone(cfg, s1, 0, k, Some(q));
    ReachableExtend(cfg, s1, ls, s);
  }

  // ---- One admitted request leaves no gap ----

  lemma {:induction false} OneActive(reqs: seq<Req>, a: nat, i: nat)
    requires a < |reqs| && reqs[a].inst == i && !reqs[a].stage.Done?
    ensures Active(reqs, i) >= 1
  {
    if a < |reqs| - 1 {
      OneActive(reqs[..|reqs| - 1], a, i);
    }
  }

  lemma {:induction false} TwoActive(reqs: seq<Req>, a: nat, b: nat, i: nat)
    requires a < b < |reqs| && reqs[a].inst == i == reqs[b].inst && !reqs[a].stage.Done? && !reqs[b].stage.Done?
    ensures Active(reqs, i) >= 2
  {
    if b < |reqs| - 1 {
      TwoActive(reqs[..|reqs| - 1], a, b, i);
    } else {
      OneActive(reqs[..|reqs| - 1], a, i);
    }
  }

  ghost predicate NoStaleSender(s: State) {
    forall k | Live(s, k) :: SendersAgree(s, k, s.table[k].payload)
  }

  /** A request that inserts a row is the only active one, so nothing is on its way. */
  lemma InsertAlone(cfg: Config, s: State, r: nat, k: CacheKey)
    requires Reachable(cfg, s) && cfg.instances <= 1 && cfg.admitted <= 1
    requires r < |s.reqs| && s.reqs[r].stage.Creating?
    ensures forall q | 0 <= q < |s.reqs| :: !s.reqs[q].stage.Sending?
  {
    ReachableInv(cfg, s);
    PoolsRespected(cfg, s, 0);
    forall q | 0 <= q < |s.reqs| && s.reqs[q].stage.Sending? ensures false {
      if q < r { TwoActive(s.reqs, q, r, 0); } else { TwoActive(s.reqs, r, q, 0); }
    }
  }

  /** A row that is live after a step was live before it, or the step has inserted it. */
  lemma LiveAfter(cfg: Config, s: State, l: Label, k: CacheKey)
    requires Enabled(cfg, s, l) && Live(Next(cfg, s, l), k)
    ensures (Live(s, k) && s.table[k] == Next(cfg, s, l).table[k]) || (l.Advance? && s.reqs[l.r].stage.Creating?)
  {
  }

  lemma SenderStep(cfg: Config, s: State, l: Label)
    requires Reachable(cfg, s) && Enabled(cfg, s, l) && cfg.instances <= 1 && cfg.admitted <= 1 && NoStaleSender(s)
    ensures NoStaleSender(Next(cfg, s, l))
  {
    var t := Next(cfg, s, l);
    ReachableInv(cfg, s);
    forall k | Live(t, k) ensures SendersAgree(t, k, t.table[k].payload) {
      LiveAfter(cfg, s, l, k);
      if Live(s, k) && s.table[k] == t.table[k] {
        SendersStep(cfg, s, l, k);
      } else {
        InsertAlone(cfg, s, l.r, k);
        StepRequest(cfg, s, l.r);
      }
    }
  }

  lemma {:induction false} SenderPath(cfg: Config, s: State, ls: seq<Label>, t: State)
    requires Reachable(cfg, s) && Path(cfg, s, ls, t) && cfg.instances <= 1 && cfg.admitted <= 1 && NoStaleSender(s)
    ensures NoStaleSender(t)
    decreases |ls|
  {
    if ls != [] {
      SenderStep(cfg, s, ls[0]);
      ReachableStep(cfg, s, ls[0]);
      SenderPath(cfg, Next(cfg, s, ls[0]), ls[1..], t);
    }
  }

  lemma OneAtATime(cfg: Config)
    requires cfg.instances <= 1 && cfg.admitted <= 1
    ensures AlwaysTheRows(cfg)
  {
    forall s, k | Reachable(cfg, s) && Live(s, k)
      ensures AnswersStayTheRows(cfg, s, k)
    {
      var start, ls :| Path(cfg, Init(cfg, start), ls, s);
      assert Path(cfg, Init(cfg, start), [], Init(cfg, start));
      SenderPath(cfg, Init(cfg, start), ls, s);
      AnswersAreTheRows(cfg, s, k);
    }
  }

  /** On one instance, all answers sent while a row lives are the row's in every run exactly when one request is admitted at a time. */
  lemma AlwaysTheRowsExactly(cfg: Config)
    requires cfg.instances == 1 && cfg.ttl > 0 && cfg.admitted > 0 && (cfg.pool <= 0 || cfg.pool > 1)
    ensures AlwaysTheRows(cfg) <==> cfg.admitted <= 1
  {
    if cfg.admitted <= 1 {
      OneAtATime(cfg);
    } else {
      var k, p, q := CacheKey("", "", "", ""), Payload([], 200, ""), Payload([], 201, "");
      var s := SentUnderNewRow(cfg, k, p, q);
      AnswersAreTheRows(cfg, s, k);
      assert !SendsRow(s, k, s.reqs[1], q);
    }
  }
}
