/**
  The stack property of the LRU with age-based deletion: on one common trace,
  a smaller cache always holds a subsequence of what a larger one holds.
 */
module LruInclusion {
  import opened Common
  import opened Lru

  predicate IsSubsequence(s: Cache, b: Cache) {
    s == [] ||
    (b != [] && ((s[0] == b[0] && IsSubsequence(s[1..], b[1..])) || IsSubsequence(s, b[1..])))
  }

  /** The small cache is included, and the large one has no more extra entries than extra room. */
  ghost predicate Included(s: Cache, small: int, b: Cache, large: int) {
    && NoDup(s) && NoDup(b)
    && |s| <= Capacity(small) && |b| <= Capacity(large)
    && IsSubsequence(s, b)
    && |b| - |s| <= Capacity(large) - Capacity(small)
  }

  lemma {:induction false} SubsequenceLength(s: Cache, b: Cache)
    requires IsSubsequence(s, b)
    ensures |s| <= |b|
    ensures forall e :: e in s ==> e in b
  {
    if s != [] {
      if s[0] == b[0] && IsSubsequence(s[1..], b[1..]) {
        SubsequenceLength(s[1..], b[1..]);
        assert s == [s[0]] + s[1..];
      } else {
        SubsequenceLength(s, b[1..]);
      }
    }
  }

  lemma {:induction false} SubsequenceWithout(s: Cache, b: Cache, k: CacheKey)
    requires IsSubsequence(s, b)
    ensures IsSubsequence(Without(s, k), Without(b, k))
  {
    if s != [] {
      if s[0] == b[0] && IsSubsequence(s[1..], b[1..]) {
        SubsequenceWithout(s[1..], b[1..], k);
      } else {
        SubsequenceWithout(s, b[1..], k);
        if b[0].key != k {
          assert ([b[0]] + Without(b[1..], k))[1..] == Without(b[1..], k);
        }
      }
    }
  }

  lemma {:induction false} SubsequenceSurvivors(s: Cache, b: Cache, before: int)
    requires IsSubsequence(s, b)
    ensures IsSubsequence(Survivors(s, before), Survivors(b, before))
    ensures |Survivors(b, before)| - |Survivors(s, before)| <= |b| - |s|
    ensures |Survivors(b, before)| <= |b|
  {
    SurvivorsSubset(b, before);
    if s != [] {
      if s[0] == b[0] && IsSubsequence(s[1..], b[1..]) {
        SubsequenceSurvivors(s[1..], b[1..], before);
      } else {
        SubsequenceSurvivors(s, b[1..], before);
        if b[0].value.createdAt >= before {
          assert ([b[0]] + Survivors(b[1..], before))[1..] == Survivors(b[1..], before);
        }
      }
    }
  }

  lemma {:induction false} SubsequenceEvictSmall(s: Cache, b: Cache)
    requires IsSubsequence(s, b)
    ensures IsSubsequence(EvictLast(s), b)
    decreases |b|
  {
    if |s| > 1 {
      if s[0] == b[0] && IsSubsequence(s[1..], b[1..]) {
        SubsequenceEvictSmall(s[1..], b[1..]);
        assert EvictLast(s)[1..] == EvictLast(s[1..]);
      } else {
        SubsequenceEvictSmall(s, b[1..]);
      }
    }
  }

  lemma {:induction false} SubsequenceEvictBoth(s: Cache, b: Cache)
    requires IsSubsequence(s, b)
    ensures IsSubsequence(EvictLast(s), EvictLast(b))
    decreases |b|
  {
    if |s| > 1 {
      assert EvictLast(b) == [b[0]] + EvictLast(b[1..]) by { SubsequenceLength(s, b); }
      if s[0] == b[0] && IsSubsequence(s[1..], b[1..]) {
        SubsequenceEvictBoth(s[1..], b[1..]);
        assert EvictLast(s)[1..] == EvictLast(s[1..]);
      } else {
        SubsequenceEvictBoth(s, b[1..]);
        assert EvictLast(b)[1..] == EvictLast(b[1..]);
      }
    }
  }

  /** A hit in the small cache is the same hit in the large one. */
  lemma SameHit(s: Cache, small: int, b: Cache, large: int, k: CacheKey)
    requires Included(s, small, b, large) && Lookup(s, k).Some?
    ensures Lookup(b, k) == Lookup(s, k)
  {
    SubsequenceLength(s, b);
    LookupSubset(b, s, k);
  }

  lemma TouchKeeps(s: Cache, small: int, b: Cache, large: int, k: CacheKey, v: CacheValue)
    requires Included(s, small, b, large) && Lookup(b, k).Some? && Lookup(s, k).Some?
    ensures Included(Touch(s, k, v), small, Touch(b, k, v), large)
  {
    SubsequenceWithout(s, b, k);
    WithoutSubset(s, k);
    WithoutSubset(b, k);
    assert Touch(s, k, v)[1..] == Without(s, k) && Touch(b, k, v)[1..] == Without(b, k);
  }

  lemma GetKeeps(s: Cache, small: int, b: Cache, large: int, k: CacheKey)
    requires Included(s, small, b, large)
    ensures Included(AfterGet(s, k), small, AfterGet(b, k), large)
  {
    if Lookup(s, k).Some? {
      SameHit(s, small, b, large, k);
      TouchKeeps(s, small, b, large, k, Lookup(s, k).value);
    } else if Lookup(b, k).Some? {
      SubsequenceWithout(s, b, k);
      WithoutSubset(s, k);
      WithoutSubset(b, k);
      assert Touch(b, k, Lookup(b, k).value)[1..] == Without(b, k);
    }
  }

  lemma SetKeeps(s: Cache, small: int, b: Cache, large: int, k: CacheKey, v: CacheValue)
    requires Included(s, small, b, large) && small <= large
    ensures Included(AfterSet(s, small, k, v), small, AfterSet(b, large, k, v), large)
  {
    ApplyKeeps(s, small, Set(k, v));
    ApplyKeeps(b, large, Set(k, v));
    var s', b' := AfterSet(s, small, k, v), AfterSet(b, large, k, v);
    if Lookup(s, k).Some? {
      SameHit(s, small, b, large, k);
      TouchKeeps(s, small, b, large, k, v);
    } else {
      WithoutSubset(s, k);
      WithoutSubset(b, k);
      SubsequenceWithout(s, b, k);
      SubsequenceEvictSmall(s, Without(b, k));
      SubsequenceEvictSmall(s, b);
      SubsequenceEvictBoth(s, b);
      assert s'[1..] == if |s| >= small then EvictLast(s) else s;
      assert b'[1..] == if Lookup(b, k).Some? then Without(b, k) else if |b| >= large then EvictLast(b) else b;
      assert IsSubsequence(s', b');
    }
  }

  lemma ApplyKeepsInclusion(s: Cache, small: int, b: Cache, large: int, op: Op)
    requires Included(s, small, b, large) && small <= large
    ensures Included(Lru.Apply(s, small, op), small, Lru.Apply(b, large, op), large)
  {
    match op
    case Get(k) => GetKeeps(s, small, b, large, k);
    case Set(k, v) => SetKeeps(s, small, b, large, k, v);
    case DeleteOld(before) =>
      SubsequenceSurvivors(s, b, before);
      SurvivorsSubset(s, before);
      SurvivorsSubset(b, before);
  }

  lemma {:induction false} RunKeepsInclusion(s: Cache, small: int, b: Cache, large: int, ops: seq<Op>)
    requires Included(s, small, b, large) && small <= large
    ensures Included(Run(s, small, ops), small, Run(b, large, ops), large)
    decreases |ops|
  {
    if ops != [] {
      ApplyKeepsInclusion(s, small, b, large, ops[0]);
      RunKeepsInclusion(Lru.Apply(s, small, ops[0]), small, Lru.Apply(b, large, ops[0]), large, ops[1..]);
    }
  }

  /** From empty caches, on every trace: subsequence at the end, and every hit of the small cache is the large one's. */
  lemma Inclusion(small: int, large: int, ops: seq<Op>, k: CacheKey)
    requires small <= large
    ensures IsSubsequence(Run([], small, ops), Run([], large, ops))
    ensures Lookup(Run([], small, ops), k).Some? ==>
              Lookup(Run([], large, ops), k) == Lookup(Run([], small, ops), k)
  {
    RunKeepsInclusion([], small, [], large, ops);
    if Lookup(Run([], small, ops), k).Some? {
      SameHit(Run([], small, ops), small, Run([], large, ops), large, k);
    }
  }
}
