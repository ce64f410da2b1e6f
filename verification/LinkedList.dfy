/**
  The doubly linked list behind the in-memory cache: explicit nodes with prev and
  next pointers, described by the ghost sequence of its nodes from front to back.
 */
module LinkedList {
  import opened Common

  /** What a list element carries: the key it was stored under and the latest value. */
  class LruEntry {
    const key: CacheKey
    var value: CacheValue

    constructor (key: CacheKey, value: CacheValue)
      ensures this.key == key && this.value == value
    {
      this.key, this.value := key, value;
    }
  }

  class Node {
    const entry: LruEntry
    var prev: Node?
    var next: Node?

    constructor (entry: LruEntry)
      ensures this.entry == entry
    {
      this.entry := entry;
      prev, next := null, null;
    }
  }

  function RemoveAt<T>(s: seq<T>, i: nat): seq<T>
    requires i < |s|
  {
    seq(|s| - 1, j requires 0 <= j < |s| - 1 => if j < i then s[j] else s[j + 1])
  }

  ghost predicate Distinct(nodes: seq<Node>) {
    forall a, b | 0 <= a < b < |nodes| :: nodes[a] != nodes[b]
  }

  /** Node i's pointers agree with its neighbours in the sequence. */
  ghost predicate Linked(nodes: seq<Node>, i: nat)
    requires i < |nodes|
    reads nodes
  {
    && nodes[i].next == (if i + 1 < |nodes| then nodes[i + 1] else null)
    && nodes[i].prev == (if i > 0 then nodes[i - 1] else null)
  }

  /** The first n nodes are linked and occur once: recursive, so that users of a list do not see the quantifiers. */
  ghost predicate Chain(nodes: seq<Node>, n: nat)
    requires n <= |nodes|
    reads nodes
  {
    n == 0 || (Chain(nodes, n - 1) && Linked(nodes, n - 1) && nodes[n - 1] !in nodes[..n - 1])
  }

  lemma {:induction false} ChainElim(nodes: seq<Node>, n: nat)
    requires n <= |nodes| && Chain(nodes, n)
    ensures forall i | 0 <= i < n :: Linked(nodes, i)
    ensures Distinct(nodes[..n])
  {
    if n > 0 {
      ChainElim(nodes, n - 1);
    }
  }

  lemma {:induction false} ChainIntro(nodes: seq<Node>, n: nat)
    requires n <= |nodes| && Distinct(nodes)
    requires forall i | 0 <= i < n :: Linked(nodes, i)
    ensures Chain(nodes, n)
  {
    if n > 0 {
      ChainIntro(nodes, n - 1);
    }
  }

  /** Node j's pointers agree with its neighbours once node i is left out. */
  ghost predicate Skips(nodes: seq<Node>, i: nat, j: nat)
    requires i < |nodes| && j < |nodes|
    reads nodes
  {
    var after, before := if j + 1 == i then j + 2 else j + 1, if j == i + 1 then j - 2 else j - 1;
    && nodes[j].next == (if after < |nodes| then nodes[after] else null)
    && nodes[j].prev == (if before >= 0 then nodes[before] else null)
  }

  lemma Relinked(nodes: seq<Node>, i: nat)
    requires i < |nodes| && Distinct(nodes) && forall j | 0 <= j < |nodes| && j != i :: Skips(nodes, i, j)
    ensures Distinct(RemoveAt(nodes, i))
    ensures forall j | 0 <= j < |nodes| - 1 :: Linked(RemoveAt(nodes, i), j)
  {
    forall j | 0 <= j < |nodes| - 1
      ensures Linked(RemoveAt(nodes, i), j)
    {
      assert Skips(nodes, i, if j < i then j else j + 1);
    }
  }

  class List {
    var front: Node?
    var back: Node?
    var len: nat
    ghost var nodes: seq<Node>

    /** The pointers spell out exactly the ghost sequence, and no node occurs twice. */
    ghost predicate Valid()
      reads this, nodes
    {
      && len == |nodes|
      && front == (if nodes == [] then null else nodes[0])
      && back == (if nodes == [] then null else nodes[|nodes| - 1])
      && Chain(nodes, |nodes|)
    }

    lemma AllDistinct()
      requires Valid()
      ensures Distinct(nodes)
    {
      Facts();
    }

    lemma Facts()
      requires Valid()
      ensures Distinct(nodes)
      ensures forall i | 0 <= i < |nodes| :: Linked(nodes, i)
    {
      ChainElim(nodes, |nodes|);
      assert nodes[..|nodes|] == nodes;
    }

    constructor ()
      ensures Valid() && nodes == []
    {
      front, back, len := null, null, 0;
      nodes := [];
    }

    /** The front node, if there is one. */
    ghost function Front(): set<Node>
      reads this
    {
      if front == null then {} else {front}
    }

    method PushFront(n: Node)
      requires Valid() && n !in nodes
      modifies this, n, Front()
      ensures Valid() && nodes == [n] + old(nodes)
    {
      Facts();
      ghost var was := nodes;
      assert front != null ==> front == was[0];
      n.prev, n.next := null, front;
      if front == null {
        back := n;
      } else {
        front.prev := n;
      }
      front := n;
      nodes, len := [n] + nodes, len + 1;
      forall j | 0 <= j < |nodes|
        ensures Linked(nodes, j)
      {
        assert j > 0 ==> nodes[j] == was[j - 1] && old(Linked(was, j - 1));
      }
      ChainIntro(nodes, |nodes|);
    }

    method Remove(n: Node, ghost i: nat)
      requires Valid() && i < |nodes| && nodes[i] == n
      modifies this, nodes
      ensures Valid() && nodes == RemoveAt(old(nodes), i)
    {
      Facts();
      Bypass(n, i);
      Relinked(nodes, i);
      nodes, len := RemoveAt(nodes, i), len - 1;
      ChainIntro(nodes, |nodes|);
    }

    /** The pointer updates of Remove: the neighbours, or the ends of the list, point past the node. */
    method Bypass(n: Node, ghost i: nat)
      requires Valid() && Distinct(nodes) && i < |nodes| && nodes[i] == n
      requires forall j | 0 <= j < |nodes| :: Linked(nodes, j)
      modifies this, nodes
      ensures nodes == old(nodes) && len == old(len)
      ensures forall j | 0 <= j < |nodes| && j != i :: Skips(nodes, i, j)
      ensures front == (if i > 0 then nodes[0] else if |nodes| > 1 then nodes[1] else null)
      ensures back == (if i + 1 < |nodes| then nodes[|nodes| - 1] else if i > 0 then nodes[i - 1] else null)
    {
      assert Linked(nodes, i);
      if n.prev == null {
        front := n.next;
      } else {
        n.prev.next := n.next;
      }
      if n.next == null {
        back := n.prev;
      } else {
        n.next.prev := n.prev;
      }
      forall j | 0 <= j < |nodes| && j != i
        ensures Skips(nodes, i, j)
      {
        assert old(Linked(nodes, j));
      }
    }

    method MoveToFront(n: Node, ghost i: nat)
      requires Valid() && i < |nodes| && nodes[i] == n
      modifies this, nodes
      ensures Valid() && nodes == [n] + RemoveAt(old(nodes), i)
    {
      AllDistinct();
      if front != n {
        Remove(n, i);
        PushFront(n);
      } else {
        assert [n] + RemoveAt(nodes, i) == nodes;
      }
    }
  }
}
