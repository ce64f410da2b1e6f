/**
  How long an LRU entry lives: it survives until enough distinct other keys were
  used or a cutoff passed it.
 */
module LruLifetime {
  import opened Common
  import opened Lru

  /** The value of k after the trace, if k stays cached: its last Set, else the one it had. */
  function Latest(k: CacheKey, v: CacheValue, ops: seq<Op>): CacheValue
    decreases |ops|
  {
    if ops == [] then v
    else if ops[0].Set? && ops[0].key == k then Latest(k, ops[0].value, ops[1..])
    else Latest(k, v, ops[1..])
  }

  /** No DeleteOld cutoff lies after the creation time of k's value at that point. */
  predicate CutoffsSpare(k: CacheKey, v: CacheValue, ops: seq<Op>)
    decreases |ops|
  {
    ops == [] ||
    match ops[0]
    case DeleteOld(before) => v.createdAt >= before && CutoffsSpare(k, v, ops[1..])
    case Set(k', v') => CutoffsSpare(k, if k' == k then v' else v, ops[1..])
    case Get(_) => CutoffsSpare(k, v, ops[1..])
  }

  /** The distinct keys other than k that the operation sets or hits. */
  function Used(c: Cache, op: Op, k: CacheKey): set<CacheKey> {
    match op
    case Set(k', _) => {k'} - {k}
    case Get(k') => if Lookup(c, k').Some? then {k'} - {k} else {}
    case DeleteOld(_) => {}
  }

  function Others(c: Cache, maxSize: int, ops: seq<Op>, k: CacheKey): set<CacheKey>
    decreases |ops|
  {
    if ops == [] then {}
    else Used(c, ops[0], k) + Others(Lru.Apply(c, maxSize, ops[0]), maxSize, ops[1..], k)
  }

  /** k is cached with v, and every more recent entry is for a key in the given set. */
  ghost predicate BehindOnly(c: Cache, k: CacheKey, v: CacheValue, ahead: set<CacheKey>) {
    exists p :: 0 <= p < |c| && c[p] == Entry(k, v) && forall i | 0 <= i < p :: c[i].key in ahead
  }

  lemma {:induction false} DistinctKeysCount(c: Cache, keys: set<CacheKey>)
    requires NoDup(c) && forall i | 0 <= i < |c| :: c[i].key in keys
    ensures |c| <= |keys|
  {
    if c != [] {
      var last := c[|c| - 1].key;
      DistinctKeysCount(c[..|c| - 1], keys - {last});
    }
  }

  lemma {:induction false} WithoutKeepsOrder(c: Cache, gone: CacheKey, k: CacheKey, v: CacheValue, ahead: set<CacheKey>)
    requires BehindOnly(c, k, v, ahead) && gone != k
    ensures BehindOnly(Without(c, gone), k, v, ahead)
  {
    var p :| 0 <= p < |c| && c[p] == Entry(k, v) && forall i | 0 <= i < p :: c[i].key in ahead;
    var w := Without(c, gone);
    if p == 0 {
      assert w[0] == Entry(k, v);
    } else {
      assert c[1..][p - 1] == Entry(k, v);
      WithoutKeepsOrder(c[1..], gone, k, v, ahead);
      var q :| 0 <= q < |Without(c[1..], gone)| && Without(c[1..], gone)[q] == Entry(k, v)
        && forall i | 0 <= i < q :: Without(c[1..], gone)[i].key in ahead;
      if c[0].key != gone {
        assert w[q + 1] == Entry(k, v);
        assert forall i | 0 <= i < q + 1 :: w[i].key in ahead;
      }
    }
  }

  lemma {:induction false} SurvivorsKeepOrder(c: Cache, before: int, k: CacheKey, v: CacheValue, ahead: set<CacheKey>)
    requires BehindOnly(c, k, v, ahead) && v.createdAt >= before
    ensures BehindOnly(Survivors(c, before), k, v, ahead)
  {
    var p :| 0 <= p < |c| && c[p] == Entry(k, v) && forall i | 0 <= i < p :: c[i].key in ahead;
    var w := Survivors(c, before);
    if p == 0 {
      assert w[0] == Entry(k, v);
    } else {
      assert c[1..][p - 1] == Entry(k, v);
      SurvivorsKeepOrder(c[1..], before, k, v, ahead);
      var q :| 0 <= q < |Survivors(c[1..], before)| && Survivors(c[1..], before)[q] == Entry(k, v)
        && forall i | 0 <= i < q :: Survivors(c[1..], before)[i].key in ahead;
      if c[0].value.createdAt >= before {
        assert w[q + 1] == Entry(k, v);
        assert forall i | 0 <= i < q + 1 :: w[i].key in ahead;
      }
    }
  }

  lemma PushKeepsOrder(c: Cache, e: Entry, k: CacheKey, v: CacheValue, ahead: set<CacheKey>)
    requires BehindOnly(c, k, v, ahead)
    ensures BehindOnly([e] + c, k, v, ahead + {e.key})
  {
    var p :| 0 <= p < |c| && c[p] == Entry(k, v) && forall i | 0 <= i < p :: c[i].key in ahead;
    var w := [e] + c;
    assert w[p + 1] == Entry(k, v);
    assert forall i | 0 <= i < p + 1 :: w[i].key in ahead + {e.key};
  }

  /** k cannot be the last entry of a full cache while fewer than a cache-full of other keys were used. */
  lemma EvictionSpares(c: Cache, maxSize: int, k: CacheKey, v: CacheValue, ahead: set<CacheKey>, newKey: CacheKey)
    requires NoDup(c) && |c| >= maxSize && BehindOnly(c, k, v, ahead)
    requires Lookup(c, newKey).None? && k !in ahead && newKey != k
    requires |ahead + {newKey}| < Capacity(maxSize)
    ensures BehindOnly(EvictLast(c), k, v, ahead)
  {
    var p :| 0 <= p < |c| && c[p] == Entry(k, v) && forall i | 0 <= i < p :: c[i].key in ahead;
    LookupIn(c, newKey);
    var front := c[..p];
    DistinctKeysCount(front + [Entry(newKey, v)], ahead + {newKey});
    assert p < |c| - 1;
    assert EvictLast(c)[p] == Entry(k, v);
  }

  lemma StepSurvives(c: Cache, maxSize: int, op: Op, k: CacheKey, v: CacheValue, ahead: set<CacheKey>)
    requires NoDup(c) && |c| <= Capacity(maxSize) && BehindOnly(c, k, v, ahead) && k !in ahead
    requires CutoffsSpare(k, v, [op])
    requires |ahead + Used(c, op, k)| < Capacity(maxSize)
    ensures BehindOnly(Lru.Apply(c, maxSize, op), k, Latest(k, v, [op]), ahead + Used(c, op, k))
  {
    BehindOnlyIsCached(c, k, v, ahead);
    var c' := Lru.Apply(c, maxSize, op);
    var v' := Latest(k, v, [op]);
    assert [op][1..] == [];
    assert Latest(k, v, [op]) == if op.Set? && op.key == k then op.value else v;
    match op
    case Get(k') =>
      if k' == k {
        assert c'[0] == Entry(k, v);
      } else if Lookup(c, k').Some? {
        WithoutKeepsOrder(c, k', k, v, ahead);
        PushKeepsOrder(Without(c, k'), Entry(k', Lookup(c, k').value), k, v, ahead);
        assert ahead + Used(c, op, k) == ahead + {k'};
      } else {
        assert ahead + Used(c, op, k) == ahead;
      }
    case Set(k', x) =>
      if k' == k {
        assert c'[0] == Entry(k, v');
      } else {
        assert ahead + Used(c, op, k) == ahead + {k'};
        if Lookup(c, k').Some? {
          WithoutKeepsOrder(c, k', k, v, ahead);
          PushKeepsOrder(Without(c, k'), Entry(k', x), k, v, ahead);
        } else if |c| >= maxSize {
          EvictionSpares(c, maxSize, k, v, ahead, k');
          PushKeepsOrder(EvictLast(c), Entry(k', x), k, v, ahead);
        } else {
          PushKeepsOrder(c, Entry(k', x), k, v, ahead);
        }
      }
    case DeleteOld(before) =>
      SurvivorsKeepOrder(c, before, k, v, ahead);
      assert ahead + Used(c, op, k) == ahead;
  }

  lemma BehindOnlyIsCached(c: Cache, k: CacheKey, v: CacheValue, ahead: set<CacheKey>)
    requires NoDup(c) && BehindOnly(c, k, v, ahead)
    ensures Lookup(c, k) == Some(v)
  {
    var p :| 0 <= p < |c| && c[p] == Entry(k, v) && forall i | 0 <= i < p :: c[i].key in ahead;
    LookupAt(c, p);
  }

  lemma {:induction false} RunSurvives(c: Cache, maxSize: int, ops: seq<Op>, k: CacheKey, v: CacheValue, ahead: set<CacheKey>)
    requires NoDup(c) && |c| <= Capacity(maxSize) && BehindOnly(c, k, v, ahead) && k !in ahead
    requires CutoffsSpare(k, v, ops)
    requires |ahead + Others(c, maxSize, ops, k)| < Capacity(maxSize)
    ensures Lookup(Run(c, maxSize, ops), k) == Some(Latest(k, v, ops))
    decreases |ops|
  {
    if ops == [] {
      BehindOnlyIsCached(c, k, v, ahead);
    } else {
      var used, next := Used(c, ops[0], k), Lru.Apply(c, maxSize, ops[0]);
      var rest := Others(next, maxSize, ops[1..], k);
      assert CutoffsSpare(k, v, [ops[0]]) by { assert [ops[0]][1..] == []; }
      CardinalityMonotone(ahead + used, ahead + Others(c, maxSize, ops, k));
      StepSurvives(c, maxSize, ops[0], k, v, ahead);
      ApplyKeeps(c, maxSize, ops[0]);
      assert (ahead + used) + rest == ahead + Others(c, maxSize, ops, k);
      assert Latest(k, v, [ops[0]]) == if ops[0].Set? && ops[0].key == k then ops[0].value else v by {
        assert [ops[0]][1..] == [];
      }
      RunSurvives(next, maxSize, ops[1..], k, Latest(k, v, [ops[0]]), ahead + used);
    }
  }

  lemma {:induction false} CardinalityMonotone(a: set<CacheKey>, b: set<CacheKey>)
    requires a <= b
    ensures |a| <= |b|
  {
    if a != {} {
      var x :| x in a;
      CardinalityMonotone(a - {x}, b - {x});
    }
  }

  /** Once set or hit, k stays cached with its latest value until Capacity(maxSize) distinct other keys were set or hit. */
  lemma Survival(c: Cache, maxSize: int, first: Op, ops: seq<Op>, k: CacheKey)
    requires NoDup(c) && |c| <= Capacity(maxSize)
    requires first.Set? || (first.Get? && Lookup(c, k).Some?)
    requires first.key == k
    requires var v := if first.Set? then first.value else Lookup(c, k).value;
             var c' := Lru.Apply(c, maxSize, first);
             && CutoffsSpare(k, v, ops)
             && |Others(c', maxSize, ops, k)| < Capacity(maxSize)
    ensures var v := if first.Set? then first.value else Lookup(c, k).value;
            Lookup(Run(c, maxSize, [first] + ops), k) == Some(Latest(k, v, ops))
  {
    var v := if first.Set? then first.value else Lookup(c, k).value;
    var c' := Lru.Apply(c, maxSize, first);
    ApplyKeeps(c, maxSize, first);
    assert c'[0] == Entry(k, v);
    assert BehindOnly(c', k, v, {});
    assert {} + Others(c', maxSize, ops, k) == Others(c', maxSize, ops, k);
    RunSurvives(c', maxSize, ops, k, v, {});
    assert ([first] + ops)[1..] == ops;
  }
}
