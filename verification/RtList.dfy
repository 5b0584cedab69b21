/**
 The intrusive circular doubly linked lists on which every ready and wait list is
 built. A ring is the sequence of its nodes, the list head included, in the order of
 the `next` pointers; a node on no list is a ring by itself.
 */
module RtList {

  class Node {
    var next: Node
    var prev: Node

    /** rt_list_init. */
    constructor ()
      ensures Ring([this])
    {
      next := this;
      prev := this;
    }
  }

  function Succ(n: nat, i: nat): (j: nat)
    requires i < n
    ensures j < n
  {
    if i + 1 == n then 0 else i + 1
  }

  predicate Edge(a: Node, b: Node)
    reads a, b
  {
    a.next == b && b.prev == a
  }

  predicate Distinct(ns: seq<Node>) {
    forall i, j :: 0 <= i < j < |ns| ==> ns[i] != ns[j]
  }

  ghost predicate Ring(ns: seq<Node>)
    reads set n | n in ns
  {
    ns != [] && Distinct(ns) && forall i :: 0 <= i < |ns| ==> Edge(ns[i], ns[Succ(|ns|, i)])
  }

  function Inserted(ns: seq<Node>, i: nat, n: Node): seq<Node>
    requires i <= |ns|
  {
    ns[..i] + [n] + ns[i..]
  }

  function Cut(ns: seq<Node>, i: nat): seq<Node>
    requires i < |ns|
  {
    ns[..i] + ns[i + 1..]
  }

  lemma InsertedAt(ns: seq<Node>, i: nat, n: Node)
    requires i <= |ns|
    ensures var m := Inserted(ns, i, n);
            |m| == |ns| + 1 && m[i] == n && (forall j :: 0 <= j < i ==> m[j] == ns[j]) && forall j :: i < j < |m| ==> m[j] == ns[j - 1]
    ensures n !in ns && Distinct(ns) ==> Distinct(Inserted(ns, i, n))
  {
    var m := Inserted(ns, i, n);
    if n !in ns && Distinct(ns) {
      forall j, k | 0 <= j < k < |m| ensures m[j] != m[k] {
      }
    }
  }

  /** rt_list_insert_after: `n` follows the node at place `i` of its ring. */
  method InsertAfter(l: Node, n: Node, ghost ns: seq<Node>, ghost i: nat)
    requires Ring(ns) && i < |ns| && ns[i] == l && n !in ns
    modifies l, l.next, n
    ensures Ring(Inserted(ns, i + 1, n))
  {
    ghost var k := Succ(|ns|, i);
    assert Edge(ns[i], ns[k]);
    l.next.prev := n;
    n.next := l.next;
    l.next := n;
    n.prev := l;
    InsertedAt(ns, i + 1, n);
    ghost var m := Inserted(ns, i + 1, n);
    forall j | 0 <= j < |m| ensures Edge(m[j], m[Succ(|m|, j)]) {
      if j < i {
        assert old(Edge(ns[j], ns[Succ(|ns|, j)]));
      } else if j > i + 1 {
        assert old(Edge(ns[j - 1], ns[Succ(|ns|, j - 1)]));
      }
    }
  }

  /** rt_list_insert_before: `n` precedes the node at place `i`; before the head means at the tail. */
  method InsertBefore(l: Node, n: Node, ghost ns: seq<Node>, ghost i: nat)
    requires Ring(ns) && i < |ns| && ns[i] == l && n !in ns
    modifies l, l.prev, n
    ensures Ring(Inserted(ns, if i == 0 then |ns| else i, n))
  {
    ghost var p := if i == 0 then |ns| - 1 else i - 1;
    assert Edge(ns[p], ns[Succ(|ns|, p)]);
    l.prev.next := n;
    n.prev := l.prev;
    l.prev := n;
    n.next := l;
    InsertedAt(ns, p + 1, n);
    ghost var m := Inserted(ns, p + 1, n);
    forall j | 0 <= j < |m| ensures Edge(m[j], m[Succ(|m|, j)]) {
      if j < p {
        assert old(Edge(ns[j], ns[Succ(|ns|, j)]));
      } else if j > p + 1 {
        assert old(Edge(ns[j - 1], ns[Succ(|ns|, j - 1)]));
      }
    }
  }

  lemma CutAt(ns: seq<Node>, i: nat)
    requires i < |ns|
    ensures var m := Cut(ns, i);
            |m| == |ns| - 1 && (forall j :: 0 <= j < i ==> m[j] == ns[j]) && forall j :: i <= j < |m| ==> m[j] == ns[j + 1]
    ensures Distinct(ns) ==> Distinct(Cut(ns, i)) && ns[i] !in Cut(ns, i)
  {
    var m := Cut(ns, i);
    if Distinct(ns) {
      forall j, k | 0 <= j < k < |m| ensures m[j] != m[k] {
      }
    }
  }

  /** rt_list_remove: the node leaves its ring and is a ring by itself; removing it again, or a
      node that is on no list, changes nothing. */
  method Remove(n: Node, ghost ns: seq<Node>, ghost i: nat)
    requires Ring(ns) && i < |ns| && ns[i] == n
    modifies n, n.next, n.prev
    ensures Ring([n])
    ensures |ns| > 1 ==> Ring(Cut(ns, i))
  {
    ghost var k, p := Succ(|ns|, i), if i == 0 then |ns| - 1 else i - 1;
    assert Edge(ns[i], ns[k]) && Edge(ns[p], ns[Succ(|ns|, p)]);
    n.next.prev := n.prev;
    n.prev.next := n.next;
    n.next := n;
    n.prev := n;
    CutAt(ns, i);
    ghost var m := Cut(ns, i);
    if |ns| > 1 {
      forall j | 0 <= j < |m| ensures Edge(m[j], m[Succ(|m|, j)]) {
        ghost var o := if j < i then j else j + 1;
        assert old(Edge(ns[o], ns[Succ(|ns|, o)]));
      }
    }
  }

  /** rt_list_isempty. */
  method IsEmpty(l: Node, ghost ns: seq<Node>) returns (empty: bool)
    requires Ring(ns) && ns[0] == l
    ensures empty <==> ns == [l]
  {
    assert Edge(ns[0], ns[Succ(|ns|, 0)]);
    empty := l.next == l;
  }

  /** rt_list_len: the nodes besides the head. */
  method Len(l: Node, ghost ns: seq<Node>) returns (len: nat)
    requires Ring(ns) && ns[0] == l
    ensures len == |ns| - 1
  {
    len := 0;
    var p := l;
    while p.next != l
      invariant len < |ns| && p == ns[len]
      decreases |ns| - len
    {
      assert Edge(ns[len], ns[Succ(|ns|, len)]);
      p := p.next;
      len := len + 1;
    }
    assert Edge(ns[len], ns[Succ(|ns|, len)]);
  }

  /** Inserting and removing a node leaves the ring as it was. */
  lemma InsertRemove(ns: seq<Node>, i: nat, n: Node)
    requires i <= |ns|
    ensures Cut(Inserted(ns, i, n), i) == ns
  {
    InsertedAt(ns, i, n);
    CutAt(Inserted(ns, i, n), i);
  }

  /** On a list with head `l`, inserting after the head queues in front and before the head behind. */
  lemma FrontAndBack(l: Node, queue: seq<Node>, n: Node)
    ensures Inserted([l] + queue, 1, n) == [l] + ([n] + queue)
    ensures Inserted([l] + queue, |queue| + 1, n) == [l] + (queue + [n])
  {
    InsertedAt([l] + queue, 1, n);
    InsertedAt([l] + queue, |queue| + 1, n);
  }
}
