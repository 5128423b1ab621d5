/** The doubly linked list in which the RPC client keeps its pending requests: a ring of
elements through a sentinel root, as Go's container/list builds it. The order of the
elements, and so what Front and Next walk over, is in the ghost sequence nodes. */
module LinkedLists {

  import opened Options

  /** The sequence without its element i. */
  ghost function Cut<X>(xs: seq<X>, i: nat): (ys: seq<X>)
    requires i < |xs|
  {
    xs[..i] + xs[i + 1..]
  }

  lemma CutAt<X>(xs: seq<X>, i: nat)
    requires i < |xs|
    ensures |Cut(xs, i)| == |xs| - 1
    ensures forall k | 0 <= k < i :: Cut(xs, i)[k] == xs[k]
    ensures forall k | i <= k < |xs| - 1 :: Cut(xs, i)[k] == xs[k + 1]
  {
  }

  class Element<T> {
    var next: Element?<T>
    var prev: Element?<T>
    var list: List?<T>
    var value: Option<T>   // None in the root only

    constructor (v: Option<T>)
      ensures next == null && prev == null && list == null && value == v
    {
      next, prev, list, value := null, null, null, v;
    }
  }

  /** The ring by position: the root stands before the first node and after the last. */
  ghost function Around<T>(root: Element<T>, nodes: seq<Element<T>>, i: int): Element<T>
  {
    if 0 <= i < |nodes| then nodes[i] else root
  }

  ghost predicate Distinct<X>(xs: seq<X>)
  {
    forall i, j | 0 <= i < j < |xs| :: xs[i] != xs[j]
  }

  lemma DistinctCut<X>(xs: seq<X>, i: nat)
    requires Distinct(xs) && i < |xs|
    ensures Distinct(Cut(xs, i)) && xs[i] !in Cut(xs, i)
    ensures forall x | x in Cut(xs, i) :: x in xs
  {
  }

  lemma AroundCut<T>(root: Element<T>, nodes: seq<Element<T>>, i: nat)
    requires i < |nodes|
    ensures forall k | -1 <= k < i :: Around(root, Cut(nodes, i), k) == Around(root, nodes, k)
    ensures forall k | i <= k < |nodes| :: Around(root, Cut(nodes, i), k) == Around(root, nodes, k + 1)
  {
  }

  class List<T> {
    const root: Element<T>
    ghost var nodes: seq<Element<T>>
    ghost var items: seq<T>

    ghost predicate Valid()
      reads this, root, nodes
    {
      && root !in nodes
      && |nodes| == |items|
      && Distinct(nodes)
      && (forall i | -1 <= i < |nodes| :: Around(root, nodes, i).next == Around(root, nodes, i + 1))
      && (forall i | 0 <= i <= |nodes| :: Around(root, nodes, i).prev == Around(root, nodes, i - 1))
      && (forall i | 0 <= i < |nodes| :: nodes[i].list == this && nodes[i].value == Some(items[i]))
    }

    constructor ()
      ensures Valid() && items == [] && fresh(root)
    {
      root := new Element(None);
      nodes, items := [], [];
      new;
      root.next, root.prev := root, root;
    }

    /** Init: the ring is the root alone. The old elements keep their links. */
    method Init()
      requires Valid()
      modifies this, root
      ensures Valid() && items == []
    {
      root.next, root.prev := root, root;
      nodes, items := [], [];
    }

    method Front() returns (e: Element?<T>)
      requires Valid()
      ensures e == if nodes == [] then null else nodes[0]
    {
      assert Around(root, nodes, -1) == root;
      assert Around(root, nodes, 0).prev == root;
      e := if root.next == root then null else root.next;
    }

    /** e.Next(). An element that was removed has no successor any more. */
    method Next(e: Element<T>, ghost i: nat) returns (n: Element?<T>)
      requires Valid() && (e.list == null || (i < |nodes| && nodes[i] == e))
      ensures n == if e.list != null && i + 1 < |nodes| then nodes[i + 1] else null
    {
      n := null;
      if e.list != null {
        assert Around(root, nodes, i).next == Around(root, nodes, i + 1);
        if e.next != e.list.root {
          n := e.next;
        }
      }
    }

    method PushBack(x: T) returns (e: Element<T>)
      requires Valid()
      modifies this, root, nodes
      ensures Valid() && fresh(e) && nodes == old(nodes) + [e] && items == old(items) + [x]
      ensures forall n | n in old(nodes) :: n.value == old(n.value)
    {
      e := new Element(Some(x));
      assert Around(root, nodes, |nodes|) == root && Around(root, nodes, |nodes| - 1).next == root;
      var at := root.prev;
      assert at == Around(root, nodes, |nodes| - 1);
      e.prev, e.next, e.list := at, root, this;
      at.next := e;
      root.prev := e;
      nodes, items := nodes + [e], items + [x];
      assert forall i | -1 <= i < |nodes| - 1 :: Around(root, nodes, i) == Around(root, old(nodes), i);
    }

    /** Takes e out of the ring and gives back what it held. */
    method Remove(e: Element<T>, ghost i: nat) returns (x: T)
      requires Valid() && i < |nodes| && nodes[i] == e
      modifies this, root, nodes
      ensures Valid()
      ensures nodes == Cut(old(nodes), i) && items == Cut(old(items), i)
      ensures x == old(items[i]) && e.list == null
      ensures forall n | n in old(nodes) :: n.value == old(n.value)
    {
      hide Cut;
      CutAt(nodes, i);
      CutAt(items, i);
      assert Around(root, nodes, i) == e;
      assert e.prev == Around(root, nodes, i - 1) && e.next == Around(root, nodes, i + 1);
      AroundCut(root, nodes, i);
      DistinctCut(nodes, i);
      x := e.value.value;
      e.prev.next := e.next;
      e.next.prev := e.prev;
      e.next, e.prev, e.list := null, null, null;
      nodes, items := Cut(nodes, i), Cut(items, i);
    }
  }
}
