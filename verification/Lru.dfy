/**
  The in-memory LRU of the idempotency middleware as a pure recency sequence:
  index 0 is the most recently used entry, the last index is evicted first.
  Module InMemoryCache proves that the map-plus-linked-list object implements it.
 */
module Lru {
  import opened Common

  datatype Entry = Entry(key: CacheKey, value: CacheValue)

  type Cache = seq<Entry>

  ghost predicate NoDup(c: Cache) {
    forall i, j | 0 <= i < j < |c| :: c[i].key != c[j].key
  }

  function Lookup(c: Cache, k: CacheKey): Option<CacheValue> {
    if c == [] then None
    else if c[0].key == k then Some(c[0].value)
    else Lookup(c[1..], k)
  }

  function Without(c: Cache, k: CacheKey): Cache {
    if c == [] then []
    else if c[0].key == k then Without(c[1..], k)
    else [c[0]] + Without(c[1..], k)
  }

  /** The entries DeleteOld keeps: those not created before the cutoff. */
  function Survivors(c: Cache, before: int): Cache {
    if c == [] then []
    else if c[0].value.createdAt < before then Survivors(c[1..], before)
    else [c[0]] + Survivors(c[1..], before)
  }

  function EvictLast(c: Cache): Cache {
    if c == [] then [] else c[..|c| - 1]
  }

  function Touch(c: Cache, k: CacheKey, v: CacheValue): Cache {
    [Entry(k, v)] + Without(c, k)
  }

  function AfterGet(c: Cache, k: CacheKey): Cache {
    match Lookup(c, k)
    case None => c
    case Some(v) => Touch(c, k, v)
  }

  function AfterSet(c: Cache, maxSize: int, k: CacheKey, v: CacheValue): Cache {
    if Lookup(c, k).Some? then Touch(c, k, v)
    else if |c| >= maxSize then [Entry(k, v)] + EvictLast(c)
    else [Entry(k, v)] + c
  }

  datatype Op =
    | Get(key: CacheKey)
    | Set(key: CacheKey, value: CacheValue)
    | DeleteOld(before: int)

  function Apply(c: Cache, maxSize: int, op: Op): Cache {
    match op
    case Get(k) => AfterGet(c, k)
    case Set(k, v) => AfterSet(c, maxSize, k, v)
    case DeleteOld(before) => Survivors(c, before)
  }

  function Run(c: Cache, maxSize: int, ops: seq<Op>): Cache
    decreases |ops|
  {
    if ops == [] then c else Run(Apply(c, maxSize, ops[0]), maxSize, ops[1..])
  }

  /** Even with a bound of zero or less the cache holds one entry: Set evicts, then always inserts. */
  function Capacity(maxSize: int): int {
    Max(1, maxSize)
  }

  // ---- Lookup against the sequence ----

  lemma {:induction false} LookupAt(c: Cache, i: nat)
    requires NoDup(c) && i < |c|
    ensures Lookup(c, c[i].key) == Some(c[i].value)
  {
    if i > 0 {
      LookupAt(c[1..], i - 1);
    }
  }

  lemma {:induction false} LookupIn(c: Cache, k: CacheKey)
    ensures Lookup(c, k).Some? <==> exists i :: 0 <= i < |c| && c[i].key == k
    ensures Lookup(c, k).Some? ==> Entry(k, Lookup(c, k).value) in c
  {
    if c != [] {
      LookupIn(c[1..], k);
      if c[0].key != k && exists i :: 0 <= i < |c| && c[i].key == k {
        var i :| 0 <= i < |c| && c[i].key == k;
        assert c[1..][i - 1].key == k;
      }
      if c[0].key == k {
        assert Entry(k, c[0].value) == c[0];
      }
    }
  }

  lemma {:induction false} WithoutSubset(c: Cache, k: CacheKey)
    ensures forall e :: e in Without(c, k) <==> e in c && e.key != k
    ensures NoDup(c) ==> NoDup(Without(c, k))
    ensures Lookup(c, k).None? ==> Without(c, k) == c
    ensures NoDup(c) && Lookup(c, k).Some? ==> |Without(c, k)| == |c| - 1
  {
    if c != [] {
      WithoutSubset(c[1..], k);
      var rest := Without(c[1..], k);
      assert forall e :: e in c <==> e == c[0] || e in c[1..];
      if NoDup(c) {
        if c[0].key == k {
          LookupIn(c[1..], k);
        } else {
          assert forall j | 0 <= j < |rest| :: rest[j] in c[1..];
        }
      }
    }
  }

  lemma {:induction false} SurvivorsSubset(c: Cache, before: int)
    ensures forall e :: e in Survivors(c, before) <==> e in c && e.value.createdAt >= before
    ensures NoDup(c) ==> NoDup(Survivors(c, before))
    ensures |Survivors(c, before)| <= |c|
  {
    if c != [] {
      SurvivorsSubset(c[1..], before);
      var rest := Survivors(c[1..], before);
      assert forall e :: e in c <==> e == c[0] || e in c[1..];
      if NoDup(c) {
        assert forall j | 0 <= j < |rest| :: rest[j] in c[1..];
      }
    }
  }

  lemma LookupSubset(c: Cache, d: Cache, k: CacheKey)
    requires NoDup(c) && forall e :: e in d ==> e in c
    ensures Lookup(d, k).None? || Lookup(d, k) == Lookup(c, k)
  {
    LookupIn(d, k);
    if Lookup(d, k).Some? {
      var e := Entry(k, Lookup(d, k).value);
      var i :| 0 <= i < |c| && c[i] == e;
      LookupAt(c, i);
    }
  }

  lemma PushNoDup(e: Entry, c: Cache)
    requires NoDup(c) && Lookup(c, e.key).None?
    ensures NoDup([e] + c)
  {
    LookupIn(c, e.key);
  }

  lemma TouchKeeps(c: Cache, k: CacheKey, v: CacheValue)
    requires NoDup(c)
    ensures NoDup(Touch(c, k, v))
    ensures Lookup(c, k).Some? ==> |Touch(c, k, v)| == |c|
  {
    WithoutSubset(c, k);
    WithoutLookup(c, k, k);
    PushNoDup(Entry(k, v), Without(c, k));
  }

  /** Every operation leaves distinct keys and at most Capacity(maxSize) of them. */
  lemma ApplyKeeps(c: Cache, maxSize: int, op: Op)
    requires NoDup(c) && |c| <= Capacity(maxSize)
    ensures NoDup(Apply(c, maxSize, op))
    ensures |Apply(c, maxSize, op)| <= Capacity(maxSize)
  {
    match op
    case Get(k) =>
      if Lookup(c, k).Some? {
        TouchKeeps(c, k, Lookup(c, k).value);
      }
    case Set(k, v) =>
      if Lookup(c, k).Some? {
        TouchKeeps(c, k, v);
      } else {
        LookupSubset(c, EvictLast(c), k);
        PushNoDup(Entry(k, v), c);
        PushNoDup(Entry(k, v), EvictLast(c));
      }
    case DeleteOld(before) =>
      SurvivorsSubset(c, before);
  }

  lemma TouchTwice(c: Cache, k: CacheKey, v: CacheValue, w: CacheValue)
    ensures Touch(Touch(c, k, v), k, w) == Touch(c, k, w)
  {
    WithoutLookup(c, k, k);
    WithoutSubset(Without(c, k), k);
    assert Touch(c, k, v)[1..] == Without(c, k);
  }

  lemma GetLookup(c: Cache, k: CacheKey, other: CacheKey)
    requires NoDup(c)
    ensures Lookup(AfterGet(c, k), other) == Lookup(c, other)
  {
    if Lookup(c, k).Some? && other != k {
      WithoutLookup(c, k, other);
    }
  }

  lemma {:induction false} WithoutLookup(c: Cache, k: CacheKey, other: CacheKey)
    ensures Lookup(Without(c, k), other) == if other == k then None else Lookup(c, other)
  {
    if c != [] {
      WithoutLookup(c[1..], k, other);
    }
  }

  lemma SetLookup(c: Cache, maxSize: int, k: CacheKey, v: CacheValue, other: CacheKey)
    requires NoDup(c)
    ensures Lookup(AfterSet(c, maxSize, k, v), k) == Some(v)
    ensures other != k ==>
              || Lookup(AfterSet(c, maxSize, k, v), other) == Lookup(c, other)
              || Lookup(AfterSet(c, maxSize, k, v), other).None?
  {
    if other != k {
      WithoutLookup(c, k, other);
      LookupSubset(c, EvictLast(c), other);
      var d := AfterSet(c, maxSize, k, v);
      assert d[1..] == if Lookup(c, k).Some? then Without(c, k) else if |c| >= maxSize then EvictLast(c) else c;
    }
  }

  lemma DeleteOldLookup(c: Cache, before: int, k: CacheKey)
    requires NoDup(c)
    ensures Lookup(Survivors(c, before), k) ==
            if Lookup(c, k).Some? && Lookup(c, k).value.createdAt >= before then Lookup(c, k) else None
  {
    SurvivorsSubset(c, before);
    LookupIn(c, k);
    LookupSubset(c, Survivors(c, before), k);
    if Lookup(c, k).Some? && Lookup(c, k).value.createdAt >= before {
      var e := Entry(k, Lookup(c, k).value);
      assert e in Survivors(c, before);
      LookupIn(Survivors(c, before), k);
    } else {
      LookupIn(Survivors(c, before), k);
    }
  }

  lemma {:induction false} RunKeeps(c: Cache, maxSize: int, ops: seq<Op>)
    requires NoDup(c) && |c| <= Capacity(maxSize)
    ensures NoDup(Run(c, maxSize, ops)) && |Run(c, maxSize, ops)| <= Capacity(maxSize)
    decreases |ops|
  {
    if ops != [] {
      ApplyKeeps(c, maxSize, ops[0]);
      RunKeeps(Apply(c, maxSize, ops[0]), maxSize, ops[1..]);
    }
  }
}
