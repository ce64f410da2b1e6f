/**
  The LRU object: a map of pointers into a doubly linked list, changed in place.
  Every method is proved against the recency-sequence operations of module Lru.
 */
module InMemoryCache {
  import opened Common
  import opened LinkedList
  import Lru

  ghost function KeySet(nodes: seq<Node>): set<CacheKey> {
    if nodes == [] then {} else {nodes[0].entry.key} + KeySet(nodes[1..])
  }

  /**
    No key occurs twice, each map pointer is the node carrying that key,
    and the recency sequence lists the nodes' keys in order.
   */
  ghost predicate Spells(nodes: seq<Node>, c: Lru.Cache, items: map<CacheKey, Node>) {
    if nodes == [] then c == []
    else
      var k := nodes[0].entry.key;
      && k !in KeySet(nodes[1..])
      && k in items && items[k] == nodes[0]
      && c != [] && c[0].key == k
      && Spells(nodes[1..], c[1..], items)
  }

  /** The map's keys are exactly the list's keys. */
  ghost predicate Shape(items: map<CacheKey, Node>, nodes: seq<Node>, c: Lru.Cache) {
    items.Keys == KeySet(nodes) && Spells(nodes, c, items)
  }

  lemma {:induction false} SpellsFrame(
    nodes: seq<Node>, c: Lru.Cache, items: map<CacheKey, Node>, items': map<CacheKey, Node>)
    requires Spells(nodes, c, items)
    requires forall k | k in KeySet(nodes) :: k in items' && k in items && items'[k] == items[k]
    ensures Spells(nodes, c, items')
  {
    if nodes != [] {
      SpellsFrame(nodes[1..], c[1..], items, items');
    }
  }

  /** A key's pointer, its node's place in the list and its place in the recency sequence agree. */
  lemma {:induction false} SpellsAt(nodes: seq<Node>, c: Lru.Cache, items: map<CacheKey, Node>, i: nat)
    requires Spells(nodes, c, items) && i < |nodes|
    ensures |c| == |nodes| && Lru.NoDup(c)
    ensures var k := nodes[i].entry.key;
            k in KeySet(nodes) && k in items && items[k] == nodes[i] && c[i].key == k
  {
    SpellsKeys(nodes, c, items, nodes[i].entry.key);
    if i > 0 {
      SpellsAt(nodes[1..], c[1..], items, i - 1);
    }
  }

  lemma {:induction false} SpellsKeys(nodes: seq<Node>, c: Lru.Cache, items: map<CacheKey, Node>, k: CacheKey)
    requires Spells(nodes, c, items)
    ensures |c| == |nodes|
    ensures k in KeySet(nodes) ==> k in items && items[k] in nodes && items[k].entry.key == k
    ensures Lru.Lookup(c, k).Some? <==> k in KeySet(nodes)
    ensures Lru.NoDup(c)
  {
    if nodes != [] {
      SpellsKeys(nodes[1..], c[1..], items, k);
      SpellsKeys(nodes[1..], c[1..], items, c[0].key);
      Lru.LookupIn(c[1..], c[0].key);
      assert forall j | 0 < j < |c| :: c[1..][j - 1] == c[j];
    }
  }

  /** Unlinking node i removes its key from the recency sequence and nothing else. */
  lemma {:induction false} SpellsRemove(nodes: seq<Node>, c: Lru.Cache, items: map<CacheKey, Node>, i: nat)
    requires Spells(nodes, c, items) && i < |nodes|
    ensures var k := nodes[i].entry.key;
            && Spells(RemoveAt(nodes, i), Lru.Without(c, k), items)
            && k !in KeySet(RemoveAt(nodes, i)) && KeySet(nodes) == {k} + KeySet(RemoveAt(nodes, i))
    ensures i == |nodes| - 1 ==> Lru.Without(c, nodes[i].entry.key) == Lru.EvictLast(c)
  {
    var k := nodes[i].entry.key;
    SpellsAt(nodes, c, items, i);
    if i == 0 {
      SpellsKeys(nodes[1..], c[1..], items, k);
      Lru.WithoutSubset(c[1..], k);
      assert RemoveAt(nodes, 0) == nodes[1..];
    } else {
      SpellsRemove(nodes[1..], c[1..], items, i - 1);
      SpellsAt(nodes[1..], c[1..], items, i - 1);
      assert RemoveAt(nodes, i)[1..] == RemoveAt(nodes[1..], i - 1);
      assert Lru.Without(c, k)[1..] == Lru.Without(c[1..], k);
    }
  }

  lemma ShapePush(items: map<CacheKey, Node>, nodes: seq<Node>, c: Lru.Cache, n: Node, v: CacheValue)
    requires Shape(items, nodes, c) && n.entry.key !in items
    ensures n !in nodes
    ensures var k := n.entry.key;
            Shape(items[k := n], [n] + nodes, [Lru.Entry(k, v)] + c)
  {
    var k := n.entry.key;
    if n in nodes {
      var i :| 0 <= i < |nodes| && nodes[i] == n;
      SpellsAt(nodes, c, items, i);
    }
    SpellsFrame(nodes, c, items, items[k := n]);
    assert ([n] + nodes)[1..] == nodes && ([Lru.Entry(k, v)] + c)[1..] == c;
  }

  lemma ShapeRemove(items: map<CacheKey, Node>, nodes: seq<Node>, c: Lru.Cache, i: nat)
    requires Shape(items, nodes, c) && i < |nodes|
    ensures var k := nodes[i].entry.key;
            && Shape(items - {k}, RemoveAt(nodes, i), Lru.Without(c, k))
            && |Lru.Without(c, k)| < |c|
            && forall k' | k' != k :: Lru.Lookup(Lru.Without(c, k), k') == Lru.Lookup(c, k')
    ensures i == |nodes| - 1 ==> Lru.Without(c, nodes[i].entry.key) == Lru.EvictLast(c)
  {
    var k := nodes[i].entry.key;
    SpellsRemove(nodes, c, items, i);
    SpellsAt(nodes, c, items, i);
    Lru.LookupAt(c, i);
    Lru.WithoutSubset(c, k);
    SpellsFrame(RemoveAt(nodes, i), Lru.Without(c, k), items, items - {k});
    forall k' | k' != k
      ensures Lru.Lookup(Lru.Without(c, k), k') == Lru.Lookup(c, k')
    {
      Lru.WithoutLookup(c, k, k');
    }
  }

  lemma ShapeMove(items: map<CacheKey, Node>, nodes: seq<Node>, c: Lru.Cache, i: nat, v: CacheValue)
    requires Shape(items, nodes, c) && i < |nodes|
    ensures var k := nodes[i].entry.key;
            && Shape(items, [nodes[i]] + RemoveAt(nodes, i), Lru.Touch(c, k, v))
            && |Lru.Touch(c, k, v)| == |c|
            && Lru.Lookup(Lru.Touch(c, k, v), k) == Some(v)
            && forall k' | k' != k :: Lru.Lookup(Lru.Touch(c, k, v), k') == Lru.Lookup(c, k')
  {
    var n, k := nodes[i], nodes[i].entry.key;
    SpellsAt(nodes, c, items, i);
    SpellsKeys(nodes, c, items, k);
    Lru.WithoutSubset(c, k);
    ShapeRemove(items, nodes, c, i);
    ShapePush(items - {k}, RemoveAt(nodes, i), Lru.Without(c, k), n, v);
    assert (items - {k})[k := n] == items;
    assert Lru.Touch(c, k, v)[1..] == Lru.Without(c, k);
  }

  lemma ShapeSize(items: map<CacheKey, Node>, nodes: seq<Node>, c: Lru.Cache)
    requires Shape(items, nodes, c)
    ensures |c| == |nodes|
  {
    SpellsKeys(nodes, c, items, CacheKey("", "", "", ""));
  }

  lemma ShapeKeys(items: map<CacheKey, Node>, nodes: seq<Node>, c: Lru.Cache, k: CacheKey)
    requires Shape(items, nodes, c)
    ensures |c| == |nodes|
    ensures k in items ==> items[k] in nodes
    ensures Lru.Lookup(c, k).Some? <==> k in items
    ensures k !in items ==> Lru.Lookup(Lru.EvictLast(c), k).None?
  {
    SpellsKeys(nodes, c, items, k);
    Lru.LookupIn(c, k);
    Lru.LookupIn(Lru.EvictLast(c), k);
  }

  // ---- What the two loops of DeleteOld compute ----

  /** The elements the first loop has collected, walking from the back down to index left. */
  ghost function Collect(nodes: seq<Node>, c: Lru.Cache, left: nat, before: int): seq<Node>
    requires left <= |nodes| == |c|
    decreases |nodes| - left
  {
    if left == |nodes| then []
    else Collect(nodes, c, left + 1, before) + if c[left].value.createdAt < before then [nodes[left]] else []
  }

  ghost function KeysOf(nodes: seq<Node>): set<CacheKey> {
    set n | n in nodes :: n.entry.key
  }

  /** The elements still to be unlinked: each is the one its key points to, and no key comes twice. */
  ghost predicate Pending(nodes: seq<Node>, items: map<CacheKey, Node>) {
    nodes == [] || (
      var k := nodes[0].entry.key;
      k in items && items[k] == nodes[0] && k !in KeysOf(nodes[1..]) && Pending(nodes[1..], items))
  }

  lemma {:induction false} PendingIntro(nodes: seq<Node>, items: map<CacheKey, Node>)
    requires forall n | n in nodes :: n.entry.key in items && items[n.entry.key] == n
    requires forall a, b | 0 <= a < b < |nodes| :: nodes[a].entry.key != nodes[b].entry.key
    ensures Pending(nodes, items)
  {
    if nodes != [] {
      PendingIntro(nodes[1..], items);
    }
  }

  lemma {:induction false} PendingWithout(nodes: seq<Node>, items: map<CacheKey, Node>, k: CacheKey)
    requires Pending(nodes, items) && k !in KeysOf(nodes)
    ensures Pending(nodes, items - {k})
  {
    if nodes != [] {
      KeysCons(nodes);
      PendingWithout(nodes[1..], items, k);
    }
  }

  lemma KeysCons(nodes: seq<Node>)
    requires nodes != []
    ensures KeysOf(nodes) == {nodes[0].entry.key} + KeysOf(nodes[1..])
  {
    assert forall n :: n in nodes <==> n == nodes[0] || n in nodes[1..];
  }

  ghost function DropKeys(c: Lru.Cache, gone: set<CacheKey>): Lru.Cache {
    if c == [] then []
    else if c[0].key in gone then DropKeys(c[1..], gone)
    else [c[0]] + DropKeys(c[1..], gone)
  }

  /** Exactly the outdated entries' elements are collected, each once. */
  lemma {:induction false} CollectFacts(
    nodes: seq<Node>, c: Lru.Cache, items: map<CacheKey, Node>, left: nat, before: int)
    requires Spells(nodes, c, items) && left <= |nodes| == |c|
    ensures var r := Collect(nodes, c, left, before);
            && (forall n | n in r :: n.entry.key in items && items[n.entry.key] == n)
            && (forall i | 0 <= i < |c| ::
                  c[i].key in KeysOf(r) <==> left <= i && c[i].value.createdAt < before)
            && (forall a, b | 0 <= a < b < |r| :: r[a].entry.key != r[b].entry.key)
    decreases |nodes| - left
  {
    if left < |nodes| {
      CollectFacts(nodes, c, items, left + 1, before);
      SpellsAt(nodes, c, items, left);
      var later, r := Collect(nodes, c, left + 1, before), Collect(nodes, c, left, before);
      var keys := KeysOf(later);
      assert c[left].key !in keys;
      if c[left].value.createdAt < before {
        assert forall n :: n in r <==> n in later || n == nodes[left];
        assert KeysOf(r) == keys + {c[left].key};
        assert forall a | 0 <= a < |later| :: later[a] in later && later[a].entry.key in keys;
      } else {
        assert r == later;
      }
    }
  }

  lemma {:induction false} DropKeysIsSurvivors(c: Lru.Cache, gone: set<CacheKey>, before: int)
    requires forall i | 0 <= i < |c| :: c[i].key in gone <==> c[i].value.createdAt < before
    ensures DropKeys(c, gone) == Lru.Survivors(c, before)
  {
    if c != [] {
      DropKeysIsSurvivors(c[1..], gone, before);
    }
  }

  lemma {:induction false} DropFirst(c: Lru.Cache, k: CacheKey, others: set<CacheKey>)
    ensures DropKeys(Lru.Without(c, k), others) == DropKeys(c, {k} + others)
  {
    if c != [] {
      DropFirst(c[1..], k, others);
      if c[0].key != k {
        assert Lru.Without(c, k)[1..] == Lru.Without(c[1..], k);
      }
    }
  }

  lemma {:induction false} DropNone(c: Lru.Cache)
    ensures DropKeys(c, {}) == c
  {
    if c != [] {
      DropNone(c[1..]);
    }
  }

  // ---- The heap part of validity ----

  /** Every indexed element belongs to the cache, under its own key, with the value the recency sequence has. */
  ghost predicate Entries(items: map<CacheKey, Node>, c: Lru.Cache, repr: set<object>, entries: set<LruEntry>)
    reads entries
  {
    forall k {:trigger items[k]} | k in items ::
      && items[k] in repr && items[k].entry in entries && items[k].entry.key == k
      && Lru.Lookup(c, k) == Some(items[k].entry.value)
  }

  ghost predicate Within(nodes: seq<Node>, repr: set<object>) {
    forall n | n in nodes :: n in repr
  }

  lemma WithinRemove(nodes: seq<Node>, i: nat, repr: set<object>)
    requires Within(nodes, repr) && i < |nodes|
    ensures Within(RemoveAt(nodes, i), repr) && Within([nodes[i]] + RemoveAt(nodes, i), repr)
  {
    forall n | n in RemoveAt(nodes, i)
      ensures n in nodes
    {
      var j :| 0 <= j < |nodes| - 1 && RemoveAt(nodes, i)[j] == n;
      assert n == nodes[if j < i then j else j + 1];
    }
  }

  lemma WithinPush(n: Node, nodes: seq<Node>, repr: set<object>)
    requires Within(nodes, repr) && n in repr
    ensures Within([n] + nodes, repr)
  {
  }

  lemma WithinWiden(nodes: seq<Node>, repr: set<object>, wider: set<object>)
    requires Within(nodes, repr) && repr <= wider
    ensures Within(nodes, wider)
  {
  }

  lemma EntriesMove(items: map<CacheKey, Node>, c: Lru.Cache, d: Lru.Cache, repr: set<object>, es: set<LruEntry>)
    requires Entries(items, c, repr, es) && forall k :: Lru.Lookup(d, k) == Lru.Lookup(c, k)
    ensures Entries(items, d, repr, es)
  {
  }

  lemma EntriesDrop(items: map<CacheKey, Node>, c: Lru.Cache, d: Lru.Cache, gone: CacheKey, repr: set<object>, es: set<LruEntry>)
    requires Entries(items, c, repr, es) && forall k | k != gone :: Lru.Lookup(d, k) == Lru.Lookup(c, k)
    ensures Entries(items - {gone}, d, repr, es)
  {
  }

  /** One element more, under its key and with its value; the others as they were. */
  lemma EntriesAdd(items: map<CacheKey, Node>, c: Lru.Cache, d: Lru.Cache, elem: Node, repr: set<object>, es: set<LruEntry>)
    requires Entries(items - {elem.entry.key}, c, repr, es) && elem in repr && elem.entry in es
    requires forall k | k != elem.entry.key :: Lru.Lookup(d, k) == Lru.Lookup(c, k)
    requires Lru.Lookup(d, elem.entry.key) == Some(elem.entry.value)
    ensures Entries(items[elem.entry.key := elem], d, repr, es)
  {
    forall k | k in items && k != elem.entry.key
      ensures k in items - {elem.entry.key} && (items - {elem.entry.key})[k] == items[k]
    {
    }
  }

  lemma EntriesWiden(
    items: map<CacheKey, Node>, c: Lru.Cache, repr: set<object>, es: set<LruEntry>, wider: set<object>, more: set<LruEntry>)
    requires Entries(items, c, repr, es) && repr <= wider && es <= more
    ensures Entries(items, c, wider, more)
  {
  }

  /** What holds of map, list and values once a new element is in front. */
  lemma Inserted(
    items: map<CacheKey, Node>, nodes: seq<Node>, c: Lru.Cache, elem: Node, repr: set<object>, es: set<LruEntry>)
    requires Shape(items, nodes, c) && Within(nodes, repr) && Entries(items, c, repr, es)
    requires elem in repr && elem.entry in es && Lru.Lookup(c, elem.entry.key).None?
    ensures elem !in nodes && Within([elem] + nodes, repr)
    ensures var key := elem.entry.key;
            var d := [Lru.Entry(key, elem.entry.value)] + c;
            Shape(items[key := elem], [elem] + nodes, d) && Entries(items[key := elem], d, repr, es)
  {
    var key := elem.entry.key;
    ShapeKeys(items, nodes, c, key);
    ShapePush(items, nodes, c, elem, elem.entry.value);
    assert items - {key} == items;
    EntriesAdd(items, c, [Lru.Entry(key, elem.entry.value)] + c, elem, repr, es);
    WithinPush(elem, nodes, repr);
  }

  class InMemoryCache {
    const maxSize: int
    const order: List
    var items: map<CacheKey, Node>
    ghost var contents: Lru.Cache
    ghost var repr: set<object>
    ghost var entries: set<LruEntry>

    ghost predicate Valid()
      reads this, repr
    {
      && this in repr && order in repr
      && Shape(items, order.nodes, contents)
      && Within(order.nodes, repr)
      && order.Valid()
      && |contents| <= Lru.Capacity(maxSize)
      && entries <= repr && Entries(items, contents, repr, entries)
    }

    constructor (maxEntries: int)
      ensures Valid() && fresh(repr)
      ensures contents == [] && maxSize == maxEntries
    {
      maxSize, items, contents := maxEntries, map[], [];
      var l := new List();
      order, repr, entries := l, {this, l}, {};
    }

    /** The position at which the list holds a cached node. */
    ghost function PositionOf(n: Node): (i: nat)
      requires n in order.nodes
      reads order
      ensures i < |order.nodes| && order.nodes[i] == n
    {
      var i :| 0 <= i < |order.nodes| && order.nodes[i] == n;
      i
    }

    method Get(key: CacheKey) returns (found: Option<CacheValue>)
      requires Valid()
      modifies repr
      ensures Valid() && repr == old(repr)
      ensures found == Lru.Lookup(old(contents), key)
      ensures contents == Lru.AfterGet(old(contents), key)
    {
      ShapeKeys(items, order.nodes, contents, key);
      if key !in items {
        return None;
      }
      var elem := items[key];
      MoveUp(elem, PositionOf(elem));
      return Some(elem.entry.value);
    }

    /** list.MoveToFront: the element becomes the most recent, with the value it has. */
    method MoveUp(elem: Node, ghost i: nat)
      requires Valid() && i < |order.nodes| && order.nodes[i] == elem
      modifies order, order.nodes, `contents
      ensures Valid() && elem.entry.key in items && items[elem.entry.key] == elem
      ensures order.nodes != [] && order.nodes[0] == elem
      ensures contents == Lru.Touch(old(contents), elem.entry.key, elem.entry.value)
    {
      SpellsAt(order.nodes, contents, items, i);
      ghost var c := Lru.Touch(contents, elem.entry.key, elem.entry.value);
      ShapeMove(items, order.nodes, contents, i, elem.entry.value);
      EntriesMove(items, contents, c, repr, entries);
      WithinRemove(order.nodes, i, repr);
      contents := c;
      order.MoveToFront(elem, i);
    }

    method Set(key: CacheKey, value: CacheValue)
      requires Valid()
      modifies repr
      ensures Valid() && fresh(repr - old(repr))
      ensures contents == Lru.AfterSet(old(contents), maxSize, key, value)
    {
      ShapeKeys(items, order.nodes, contents, key);
      if key in items {
        Update(key, value);
        return;
      }
      if order.len >= maxSize {
        EvictLRU();
      }
      Push(key, value);
    }

    /** Set's branch for a key that is cached: move its element to the front and overwrite the value. */
    method Update(key: CacheKey, value: CacheValue)
      requires Valid() && key in items
      modifies repr
      ensures Valid() && repr == old(repr)
      ensures contents == Lru.Touch(old(contents), key, value)
    {
      ShapeKeys(items, order.nodes, contents, key);
      var elem := items[key];
      Lru.TouchTwice(contents, key, elem.entry.value, value);
      assert elem in repr && elem.entry in entries && elem.entry.key == key;
      MoveUp(elem, PositionOf(elem));
      Overwrite(elem, value);
    }

    method Overwrite(elem: Node, value: CacheValue)
      requires Valid() && order.nodes != [] && order.nodes[0] == elem
      requires elem.entry.key in items && items[elem.entry.key] == elem
      modifies elem.entry, `contents
      ensures Valid()
      ensures contents == Lru.Touch(old(contents), elem.entry.key, value)
    {
      ghost var key := elem.entry.key;
      ghost var c := Lru.Touch(contents, key, value);
      EntriesDrop(items, contents, contents, key, repr, entries);
      ShapeMove(items, order.nodes, contents, 0, value);
      assert [elem] + RemoveAt(order.nodes, 0) == order.nodes;
      elem.entry.value := value;
      EntriesAdd(items, contents, c, elem, repr, entries);
      assert items[key := elem] == items;
      contents := c;
    }

    /** Set's branch for a new key: a new element for it. */
    method Push(key: CacheKey, value: CacheValue)
      requires Valid() && Lru.Lookup(contents, key).None? && |contents| < Lru.Capacity(maxSize)
      modifies repr
      ensures Valid() && fresh(repr - old(repr))
      ensures contents == [Lru.Entry(key, value)] + old(contents)
    {
      var entry := new LruEntry(key, value);
      var elem := new Node(entry);
      Adopt(elem);
      Insert(elem);
    }

    /** A new element joins the cache's objects, before it is linked. */
    ghost method Adopt(elem: Node)
      requires Valid()
      modifies `repr, `entries
      ensures Valid() && repr == old(repr) + {elem, elem.entry} && elem.entry in entries
    {
      EntriesWiden(items, contents, repr, entries, repr + {elem, elem.entry}, entries + {elem.entry});
      WithinWiden(order.nodes, repr, repr + {elem, elem.entry});
      repr, entries := repr + {elem, elem.entry}, entries + {elem.entry};
    }

    /** list.PushFront and the map's new pointer. */
    method Insert(elem: Node)
      requires Valid() && elem in repr && elem.entry in entries
      requires Lru.Lookup(contents, elem.entry.key).None? && |contents| < Lru.Capacity(maxSize)
      modifies this, order, elem, order.Front()
      ensures Valid() && repr == old(repr)
      ensures contents == [Lru.Entry(elem.entry.key, elem.entry.value)] + old(contents)
    {
      var key := elem.entry.key;
      ghost var c := [Lru.Entry(key, elem.entry.value)] + contents;
      Inserted(items, order.nodes, contents, elem, repr, entries);
      order.PushFront(elem);
      items, contents := items[key := elem], c;
    }

    /** Drop an element from the map and from the list, as eviction and DeleteOld both do. */
    method Unlink(elem: Node, ghost i: nat)
      requires Valid() && i < |order.nodes| && order.nodes[i] == elem
      modifies this, order, order.nodes
      ensures Valid() && repr == old(repr)
      ensures contents == Lru.Without(old(contents), elem.entry.key)
      ensures items == old(items) - {elem.entry.key}
    {
      ShapeRemove(items, order.nodes, contents, i);
      EntriesDrop(items, contents, Lru.Without(contents, elem.entry.key), elem.entry.key, repr, entries);
      WithinRemove(order.nodes, i, repr);
      contents := Lru.Without(contents, elem.entry.key);
      items := items - {elem.entry.key};
      order.Remove(elem, i);
    }

    method EvictLRU()
      requires Valid()
      modifies repr
      ensures Valid() && repr == old(repr)
      ensures contents == Lru.EvictLast(old(contents))
    {
      var last := order.back;
      ShapeSize(items, order.nodes, contents);
      if last == null {
        return;
      }
      ghost var i := |order.nodes| - 1;
      ShapeRemove(items, order.nodes, contents, i);
      Unlink(last, i);
    }

    method DeleteOld(before: int)
      requires Valid()
      modifies repr
      ensures Valid() && repr == old(repr)
      ensures contents == Lru.Survivors(old(contents), before)
    {
      ghost var was, c := order.nodes, contents;
      ShapeSize(items, was, c);
      var toRemove: seq<Node> := [];
      var elem := order.back;
      ghost var left: nat := |was|;
      while elem != null
        invariant left <= |was| && elem == if left == 0 then null else was[left - 1]
        invariant toRemove == Collect(was, c, left, before)
        modifies {}
        decreases left
      {
        BackwardStep(left - 1);
        if elem.entry.value.createdAt < before {
          toRemove := toRemove + [elem];
        }
        elem := elem.prev;
        left := left - 1;
      }
      CollectFacts(was, c, items, 0, before);
      DropKeysIsSurvivors(c, KeysOf(toRemove), before);
      PendingIntro(toRemove, items);
      UnlinkAll(toRemove);
    }

    /** What the first loop of DeleteOld reads at one element. */
    lemma BackwardStep(i: nat)
      requires Valid() && i < |order.nodes|
      ensures |contents| == |order.nodes|
      ensures contents[i].value == order.nodes[i].entry.value
      ensures order.nodes[i].prev == if i > 0 then order.nodes[i - 1] else null
    {
      order.Facts();
      assert Linked(order.nodes, i);
      SpellsAt(order.nodes, contents, items, i);
      Lru.LookupAt(contents, i);
    }

    /** The second loop of DeleteOld. */
    method UnlinkAll(toRemove: seq<Node>)
      requires Valid() && Pending(toRemove, items)
      modifies repr
      ensures Valid() && repr == old(repr)
      ensures contents == DropKeys(old(contents), KeysOf(toRemove))
    {
      ghost var all := DropKeys(contents, KeysOf(toRemove));
      ghost var rest := toRemove;
      for j := 0 to |toRemove|
        invariant Valid() && repr == old(repr)
        invariant rest == toRemove[j..] && Pending(rest, items)
        invariant DropKeys(contents, KeysOf(rest)) == all
      {
        DropFirst(contents, rest[0].entry.key, KeysOf(rest[1..]));
        UnlinkNext(toRemove[j], rest);
        rest := rest[1..];
      }
      DropNone(contents);
      assert KeysOf([]) == {};
    }

    /** One round of it; rest is what is still to be unlinked. */
    method UnlinkNext(elem: Node, ghost rest: seq<Node>)
      requires Valid() && Pending(rest, items) && rest != [] && rest[0] == elem
      modifies repr
      ensures Valid() && repr == old(repr) && Pending(rest[1..], items)
      ensures contents == Lru.Without(old(contents), elem.entry.key)
      ensures KeysOf(rest) == {elem.entry.key} + KeysOf(rest[1..])
    {
      KeysCons(rest);
      PendingWithout(rest[1..], items, elem.entry.key);
      ShapeKeys(items, order.nodes, contents, elem.entry.key);
      Unlink(elem, PositionOf(elem));
    }
  }
}
