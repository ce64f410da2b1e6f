/**
  When an LRU may answer instead of the table. A hit is not checked for age, so with a second
  instance an LRU can outlive the row its entry came from and disagree with the next one.
 */
module Transparency {
  import opened Common
  import opened Protocol
  import opened Safety
  import opened Liveness
  import opened Sequential
  import Lru

  /** In every reachable state, every LRU that holds a key with a live row holds that row's response. */
  ghost predicate Transparent(cfg: Config) {
    forall s, k, i ::
      Reachable(cfg, s) && Live(s, k) && 0 <= i < |s.mem| ==> Agrees(s.mem[i], k, s.table[k].payload)
  }

  lemma OneInstanceIsTransparent(cfg: Config)
    requires cfg.instances <= 1
    ensures Transparent(cfg)
  {
    forall s, k, i | Reachable(cfg, s) && Live(s, k) && 0 <= i < |s.mem|
      ensures Agrees(s.mem[i], k, s.table[k].payload)
    {
      ReachableInv(cfg, s);
      assert KeyInv(cfg, s, k);
    }
  }

  /** One request alone on instance 0, from the empty system. */
  lemma FirstRun(cfg: Config, k: CacheKey, p: Payload) returns (s: State)
    requires cfg.instances > 0 && cfg.admitted > 0 && (cfg.pool <= 0 || cfg.pool > 1)
    ensures Reachable(cfg, s) && s == Alone(cfg, Init(cfg, 0), 0, k, Some(p))
    ensures s.reqs == [Req(0, k, Done)] && s.locks == map[] && s.now == 0
    ensures |s.mem| == cfg.instances && Lru.Lookup(s.mem[0], k) == Some(CacheValue(p, 0))
    ensures forall i | 0 < i < |s.mem| :: s.mem[i] == []
    ensures s.table == map[k := Row(p, 0, cfg.ttl)]
  {
    var init := Init(cfg, 0);
    var ls := AlonePath(cfg, init, 0, k, Some(p));
    s := Alone(cfg, init, 0, k, Some(p));
    assert Path(cfg, init, ls, s);
    assert [] + [Req(0, k, Done)] == [Req(0, k, Done)];
  }

  /** The stale run: the first row expires and is purged, and a second instance executes the key again. */
  lemma SecondInstanceIsStale(cfg: Config, k: CacheKey, p: Payload, q: Payload) returns (s: State)
    requires cfg.instances > 1 && cfg.ttl > 0 && cfg.admitted > 0 && (cfg.pool <= 0 || cfg.pool > 1)
    ensures Reachable(cfg, s) && |s.mem| == cfg.instances
    ensures Live(s, k) && s.table[k].payload == q
    ensures Lru.Lookup(s.mem[0], k) == Some(CacheValue(p, 0))
  {
    var s1 := FirstRun(cfg, k, p);
    ReachableStep(cfg, s1, Tick(cfg.ttl + 1));
    var s2 := Next(cfg, s1, Tick(cfg.ttl + 1));
    ReachableStep(cfg, s2, DbCleanup);
    var s3 := Next(cfg, s2, DbCleanup);
    assert k !in s3.table;
    assert s3.reqs == [] + [Req(0, k, Done)];
    SumsAppend([], Req(0, k, Done), 1);
    var ls := AlonePath(cfg, s3, 1, k, Some(q));
    s := Alone(cfg, s3, 1, k, Some(q));
    ReachableExtend(cfg, s3, ls, s);
  }

  /** The LRUs answer as the table in all runs exactly when there is one instance. */
  lemma TransparentExactly(cfg: Config)
    requires cfg.ttl > 0 && cfg.admitted > 0 && (cfg.pool <= 0 || cfg.pool > 1)
    ensures Transparent(cfg) <==> cfg.instances <= 1
  {
    if cfg.instances <= 1 {
      OneInstanceIsTransparent(cfg);
    } else {
      var k, p, q := CacheKey("", "", "", ""), Payload([], 200, ""), Payload([], 201, "");
      var s := SecondInstanceIsStale(cfg, k, p, q);
      assert !Agrees(s.mem[0], k, s.table[k].payload);
    }
  }
}
