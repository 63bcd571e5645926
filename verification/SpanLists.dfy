/** The circular doubly linked lists of spans, with a header node. */
module SpanLists {
  class Node {
    var next: Node?
    var prev: Node?

    constructor ()
      ensures next == null && prev == null
    {
      next, prev := null, null;
    }
  }

  /** The node after, and the node before, place `i` of a ring. */
  function After(ring: seq<Node>, i: int): Node
    requires 0 <= i < |ring|
  {
    if i + 1 < |ring| then ring[i + 1] else ring[0]
  }

  function Before(ring: seq<Node>, i: int): Node
    requires 0 <= i < |ring|
  {
    if i > 0 then ring[i - 1] else ring[|ring| - 1]
  }

  ghost predicate LinkedAt(ring: seq<Node>, i: int)
    requires 0 <= i < |ring|
    reads ring
  {
    ring[i].next == After(ring, i) && ring[i].prev == Before(ring, i)
  }

  /** The nodes of `q`, in order, make up the list with header `list`. */
  ghost predicate Ring(list: Node, q: seq<Node>)
    reads list, q
  {
    var ring := [list] + q;
    && (forall a, b :: 0 <= a < b < |ring| ==> ring[a] != ring[b])
    && (forall i :: 0 <= i < |ring| ==> LinkedAt(ring, i))
  }

  method Init(list: Node)
    modifies list
    ensures Ring(list, [])
  {
    list.next, list.prev := list, list;
  }

  /** As `LinkedAt`, for a ring whose links leave out the place after `k`. */
  ghost predicate SkipsAt(ring: seq<Node>, k: int, i: int)
    requires 0 <= k < |ring| - 1 && 0 <= i < |ring|
    reads ring
  {
    i != k + 1 ==>
      && ring[i].next == (if i == k then After(ring, k + 1) else After(ring, i))
      && ring[i].prev == (if ring[i] == After(ring, k + 1) then ring[k] else Before(ring, i))
  }

  /** Takes the node at place `k` out of the list. */
  method Remove(span: Node, ghost list: Node, ghost q: seq<Node>, ghost k: int)
    requires Ring(list, q) && 0 <= k < |q| && q[k] == span
    modifies list, q
    ensures Ring(list, q[..k] + q[k + 1..]) && span.next == null && span.prev == null
  {
    ghost var ring := [list] + q;
    assert LinkedAt(ring, k + 1) && LinkedAt(ring, k);
    assert k + 2 < |ring| ==> LinkedAt(ring, k + 2);
    span.prev.next := span.next;
    span.next.prev := span.prev;
    span.prev := null;
    span.next := null;
    forall i | 0 <= i < |ring| ensures SkipsAt(ring, k, i) {
      assert old(LinkedAt(ring, i));
    }
    Spliced(list, q, k);
  }

  lemma Spliced(list: Node, q: seq<Node>, k: int)
    requires 0 <= k < |q|
    requires var ring := [list] + q;
      && (forall a, b :: 0 <= a < b < |ring| ==> ring[a] != ring[b])
      && (forall i :: 0 <= i < |ring| ==> SkipsAt(ring, k, i))
    ensures Ring(list, q[..k] + q[k + 1..])
  {
    var ring, short := [list] + q, [list] + (q[..k] + q[k + 1..]);
    forall i | 0 <= i < |short| ensures LinkedAt(short, i) {
      var j := if i <= k then i else i + 1;
      assert short[i] == ring[j] && SkipsAt(ring, k, j);
    }
    forall a, b | 0 <= a < b < |short| ensures short[a] != short[b] {
      assert short[a] == ring[if a <= k then a else a + 1] && short[b] == ring[if b <= k then b else b + 1];
    }
  }

  /** Puts a node that is in no list first. */
  method Prepend(list: Node, span: Node, ghost q: seq<Node>)
    requires Ring(list, q) && span !in q && span != list
    modifies list, span, q
    ensures Ring(list, [span] + q)
  {
    ghost var ring := [list] + q;
    assert LinkedAt(ring, 0);
    assert |ring| > 1 ==> LinkedAt(ring, 1);
    span.next := list.next;
    span.prev := list;
    list.next.prev := span;
    list.next := span;
    ghost var longer := [list] + ([span] + q);
    forall i | 0 <= i < |longer| ensures LinkedAt(longer, i) {
      if i >= 2 {
        assert longer[i] == ring[i - 1] && old(LinkedAt(ring, i - 1));
      } else if i == 0 {
        assert old(LinkedAt(ring, 0));
      }
    }
    forall a, b | 0 <= a < b < |longer| ensures longer[a] != longer[b] {
      assert a >= 2 ==> longer[a] == ring[a - 1];
      assert b >= 2 ==> longer[b] == ring[b - 1] == q[b - 2];
    }
  }

  method Length(list: Node, ghost q: seq<Node>) returns (result: nat)
    requires Ring(list, q)
    ensures result == |q|
  {
    ghost var ring := [list] + q;
    assert LinkedAt(ring, 0);
    var s := list.next;
    result := 0;
    while s != list
      invariant 0 <= result <= |q| && s == After(ring, result)
      decreases |q| - result
    {
      assert LinkedAt(ring, result + 1);
      result := result + 1;
      s := s.next;
    }
  }
}
