/** The intrusive double linked rings of rtservice.h: each operation acts on the
    ring as a sequence operation, and touches only the nodes it names. */
module Ring {
  import opened Words

  class Node {
    var next: Node
    var prev: Node

    /** rt_list_init: a ring of its own. */
    constructor ()
      ensures Ring([this])
    {
      next, prev := this, this;
    }
  }

  ghost predicate Tied(a: Node, b: Node)
    reads a, b
  {
    a.next == b && b.prev == a
  }

  ghost predicate TiedAt(c: seq<Node>, i: int)
    requires 0 <= i < |c|
    reads c
  {
    Tied(c[i], if i + 1 < |c| then c[i + 1] else c[0])
  }

  /** The nodes of c, in this order, form a ring; c[0] is the list head. */
  ghost predicate Ring(c: seq<Node>)
    reads c
  {
    |c| > 0 && NoDup(c) && forall i :: 0 <= i < |c| ==> TiedAt(c, i)
  }

  /** A ring that shares no node with c or n; [] stands for none. */
  ghost predicate Other(d: seq<Node>, c: seq<Node>, n: Node)
    reads d
  {
    d == [] || (Ring(d) && n !in d && forall x :: x in d ==> x !in c)
  }

  function InsertAt<T>(c: seq<T>, k: nat, n: T): seq<T>
    requires k <= |c|
  {
    c[..k] + [n] + c[k..]
  }

  function RemoveAt<T>(c: seq<T>, k: nat): seq<T>
    requires k < |c|
  {
    c[..k] + c[k + 1..]
  }

  /** rt_list_insert_after: n comes right after l. */
  method InsertAfter(l: Node, n: Node, ghost c: seq<Node>, ghost k: nat, ghost other: seq<Node>)
    requires Ring(c) && k < |c| && c[k] == l && n !in c && Other(other, c, n)
    modifies l, l.next, n
    ensures Ring(InsertAt(c, k + 1, n)) && Other(other, c, n)
  {
    ghost var d := InsertAt(c, k + 1, n);
    assert TiedAt(c, k) && l in c && l.next in c;
    l.next.prev := n;
    n.next := l.next;
    l.next := n;
    n.prev := l;
    forall i | 0 <= i < |other| ensures TiedAt(other, i) {
      assert old(TiedAt(other, i));
      assert other[i] in other && other[if i + 1 < |other| then i + 1 else 0] in other;
    }
    forall i | 0 <= i < |d| ensures TiedAt(d, i) {
      if i < k {
        assert old(TiedAt(c, i));
      } else if i > k + 1 {
        assert old(TiedAt(c, i - 1));
      }
    }
  }

  /** rt_list_insert_before: n comes right before l; before the head is the end. */
  method InsertBefore(l: Node, n: Node, ghost c: seq<Node>, ghost k: nat, ghost other: seq<Node>)
    requires Ring(c) && k < |c| && c[k] == l && n !in c && Other(other, c, n)
    modifies l, l.prev, n
    ensures Ring(if k == 0 then c + [n] else InsertAt(c, k, n)) && Other(other, c, n)
  {
    ghost var j := if k == 0 then |c| - 1 else k - 1;
    ghost var d := InsertAt(c, j + 1, n);
    assert TiedAt(c, j) && l in c && l.prev in c;
    l.prev.next := n;
    n.prev := l.prev;
    l.prev := n;
    n.next := l;
    forall i | 0 <= i < |other| ensures TiedAt(other, i) {
      assert old(TiedAt(other, i));
      assert other[i] in other && other[if i + 1 < |other| then i + 1 else 0] in other;
    }
    forall i | 0 <= i < |d| ensures TiedAt(d, i) {
      if i < j {
        assert old(TiedAt(c, i));
      } else if i > j + 1 {
        assert old(TiedAt(c, i - 1));
      }
    }
    assert k == 0 ==> d == c + [n];
  }

  /** rt_list_remove: n leaves its ring and is a ring of its own. */
  method Remove(n: Node, ghost c: seq<Node>, ghost k: nat, ghost other: seq<Node>)
    requires Ring(c) && k < |c| && c[k] == n && Other(other, c, n)
    modifies n, n.next, n.prev
    ensures Ring([n]) && (|c| > 1 ==> Ring(RemoveAt(c, k))) && Other(other, c, n)
  {
    ghost var d := RemoveAt(c, k);
    ghost var j := if k == 0 then |c| - 1 else k - 1;
    assert TiedAt(c, k) && TiedAt(c, j) && n.next in c && n.prev in c;
    n.next.prev := n.prev;
    n.prev.next := n.next;
    n.next, n.prev := n, n;
    forall i | 0 <= i < |other| ensures TiedAt(other, i) {
      assert old(TiedAt(other, i));
      assert other[i] in other && other[if i + 1 < |other| then i + 1 else 0] in other;
    }
    forall i | 0 <= i < |d| ensures TiedAt(d, i) {
      assert old(TiedAt(c, if i < k then i else i + 1));
    }
  }

  /** rt_list_isempty. */
  method IsEmpty(l: Node, ghost c: seq<Node>) returns (empty: bool)
    requires Ring(c) && c[0] == l
    ensures empty <==> |c| == 1
  {
    assert TiedAt(c, 0);
    empty := l.next == l;
  }

  /** rt_list_len: the number of nodes besides the head. */
  method Len(l: Node, ghost c: seq<Node>) returns (len: nat)
    requires Ring(c) && c[0] == l
    ensures len == |c| - 1
  {
    len := 0;
    var p := l;
    while p.next != l
      invariant 0 <= len < |c| && p == c[len]
      decreases |c| - len
    {
      assert TiedAt(c, len);
      p := p.next;
      len := len + 1;
    }
    assert TiedAt(c, len);
  }
}
