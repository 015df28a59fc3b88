/** The singly linked lists of data points (`list.c`), with their head and tail pointers.

    `Points()` is the sequence a list stands for; every operation is specified by what it does
    to that sequence. A removed node is only unlinked: releasing its memory is not modelled.
 */
module LinkedLists {

  /** A node's payload. The features that the source holds in integers (n_th, mem_used, mem_free,
      mem_shared, mem_buffers, mem_cached, swap_used, swap_free) are `counts`, in that order; the
      processor shares held in floating point (cpu_user, cpu_nice, cpu_system, cpu_iowait,
      cpu_steal, cpu_idle) are `loads`; `slopes` has one entry for each of the fourteen. */
  datatype Point = Point(key: real, generation: real, slopes: seq<real>, counts: seq<int>, loads: seq<real>)

  /** A node; its payload is filled in when it is made and never changed. */
  class Node {
    const point: Point
    var next: Node?

    constructor (p: Point)
      ensures point == p && next == null
    {
      point, next := p, null;
    }
  }

  /** The first position whose key is x, or the length. */
  function Find(s: seq<Point>, x: real): (i: nat)
    ensures i <= |s|
    ensures i < |s| ==> s[i].key == x
    ensures forall k :: 0 <= k < i ==> s[k].key != x
  {
    if s == [] || s[0].key == x then 0 else
      var i := Find(s[1..], x);
      assert forall k :: 1 <= k < i + 1 ==> s[k] == s[1..][k - 1];
      i + 1
  }

  lemma {:induction false} FindIs(s: seq<Point>, x: real, i: nat)
    requires i <= |s| && (i < |s| ==> s[i].key == x)
    requires forall k :: 0 <= k < i ==> s[k].key != x
    ensures i == Find(s, x)
  {
    var f := Find(s, x);
    assert f < |s| ==> s[f].key == x;
    assert i < |s| ==> s[i].key == x;
  }

  /** s with e after position i, or s when there is no such position. */
  function Inserted<T>(s: seq<T>, i: nat, e: T): seq<T> {
    if i < |s| then s[..i + 1] + [e] + s[i + 1..] else s
  }

  /** s without position i, or s when there is no such position. */
  function Removed<T>(s: seq<T>, i: nat): seq<T> {
    if i < |s| then s[..i] + s[i + 1..] else s
  }

  ghost function PointsOf(nodes: seq<Node>): (s: seq<Point>)
    ensures |s| == |nodes|
    ensures forall i :: 0 <= i < |s| ==> s[i] == nodes[i].point
  {
    seq(|nodes|, i requires 0 <= i < |nodes| => nodes[i].point)
  }

  lemma PointsInserted(s: seq<Node>, i: nat, e: Node)
    ensures PointsOf(Inserted(s, i, e)) == Inserted(PointsOf(s), i, e.point)
  {}

  lemma PointsRemoved(s: seq<Node>, i: nat)
    ensures PointsOf(Removed(s, i)) == Removed(PointsOf(s), i)
  {}

  ghost predicate Distinct(s: seq<Node>) {
    forall i, j :: 0 <= i < j < |s| ==> s[i] != s[j]
  }

  lemma InsertedDistinct(s: seq<Node>, i: nat, e: Node)
    requires Distinct(s) && i < |s| && e !in s
    ensures Distinct(Inserted(s, i, e)) && |Inserted(s, i, e)| == |s| + 1
    ensures Inserted(s, i, e)[0] == s[0] && Inserted(s, i, e)[|s|] == if i == |s| - 1 then e else s[|s| - 1]
  {
    var r := Inserted(s, i, e);
    forall k, l | 0 <= k < l < |r| ensures r[k] != r[l] {
      if k == i + 1 || l == i + 1 {
        assert e !in s;
      }
    }
  }

  lemma RemovedDistinct(s: seq<Node>, i: nat)
    requires Distinct(s) && i < |s|
    ensures Distinct(Removed(s, i)) && |Removed(s, i)| == |s| - 1
    ensures |s| > 1 ==> Removed(s, i)[0] == s[if i == 0 then 1 else 0]
    ensures |s| > 1 ==> Removed(s, i)[|s| - 2] == s[if i == |s| - 1 then |s| - 2 else |s| - 1]
  {}

  /** Every node but the one at position x points to the one after it, and the last to none. */
  ghost predicate ChainedBut(nodes: seq<Node>, x: nat)
    reads nodes
  {
    forall i {:trigger nodes[i].next} :: 0 <= i < |nodes| && i != x ==>
      nodes[i].next == if i == |nodes| - 1 then null else nodes[i + 1]
  }

  ghost predicate Chained(nodes: seq<Node>)
    reads nodes
  {
    ChainedBut(nodes, |nodes|)
  }

  /** Linking e in after position i keeps the chain. */
  lemma ChainInserted(s: seq<Node>, i: nat, e: Node)
    requires i < |s| && ChainedBut(s, i) && s[i].next == e
    requires e.next == if i == |s| - 1 then null else s[i + 1]
    ensures Chained(Inserted(s, i, e))
  {
    var r := Inserted(s, i, e);
    forall k {:trigger r[k].next} | 0 <= k < |r| ensures r[k].next == if k == |r| - 1 then null else r[k + 1] {
      if k < i {
        assert r[k] == s[k];
      } else if k > i + 1 {
        assert r[k] == s[k - 1];
      }
    }
  }

  /** Unlinking position i > 0 keeps the chain. */
  lemma ChainRemoved(s: seq<Node>, i: nat)
    requires i < |s| && ChainedBut(s, if i == 0 then |s| else i - 1)
    requires i > 0 ==> s[i - 1].next == if i == |s| - 1 then null else s[i + 1]
    ensures Chained(Removed(s, i))
  {
    var r := Removed(s, i);
    forall k {:trigger r[k].next} | 0 <= k < |r| ensures r[k].next == if k == |r| - 1 then null else r[k + 1] {
      if k >= i {
        assert r[k] == s[k + 1];
      } else {
        assert r[k] == s[k];
      }
    }
  }

  class List {
    var head: Node?
    var tail: Node?
    ghost var nodes: seq<Node>

    ghost predicate Linked()
      reads this, nodes
    {
      && Distinct(nodes)
      && Chained(nodes)
    }

    ghost predicate Valid()
      reads this, nodes
    {
      && Linked()
      && head == (if nodes == [] then null else nodes[0])
      && tail == (if nodes == [] then null else nodes[|nodes| - 1])
    }

    ghost function Points(): (s: seq<Point>)
      reads this
      ensures |s| == |nodes|
    {
      PointsOf(nodes)
    }

    /** The last node, if there is one. */
    ghost function Last(): set<Node>
      reads this
    {
      if tail == null then {} else {tail}
    }

    /** initList */
    constructor ()
      ensures Valid() && Points() == [] && nodes == []
    {
      head, tail, nodes := null, null, [];
    }

    /** The node is put first. In an empty list its `next` is trusted to be null. */
    method InsertFront(temp: Node)
      requires Valid() && temp !in nodes && (head == null ==> temp.next == null)
      modifies this, temp`next
      ensures Valid() && nodes == [temp] + old(nodes)
      ensures Points() == [temp.point] + old(Points())
    {
      if head == null {
        head, tail := temp, temp;
      } else {
        temp.next := head;
        head := temp;
      }
      nodes := [temp] + nodes;
    }

    /** The node is put last; its `next` is trusted to be null. */
    method InsertRear(temp: Node)
      requires Valid() && temp !in nodes && temp.next == null
      modifies this, Last()
      ensures Valid() && nodes == old(nodes) + [temp]
      ensures Points() == old(Points()) + [temp.point]
    {
      if head == null {
        head, tail := temp, temp;
      } else {
        tail.next := temp;
        tail := temp;
      }
      nodes := nodes + [temp];
    }

    /** The search loop of insertNext and deleteNode: the first node whose key is x, and the
        node before it. */
    method Search(x: int) returns (t: Node?, tp: Node?, ghost i: nat)
      requires Valid()
      ensures i == Find(Points(), x as real)
      ensures t == (if i < |nodes| then nodes[i] else null)
      ensures tp == (if nodes == [] then null else if i == 0 then nodes[0] else nodes[i - 1])
    {
      t, tp, i := head, head, 0;
      ghost var s := Points();
      while t != null
        invariant i <= |nodes| && t == (if i < |nodes| then nodes[i] else null)
        invariant tp == (if nodes == [] then null else if i == 0 then nodes[0] else nodes[i - 1])
        invariant forall k :: 0 <= k < i ==> s[k].key != x as real
        decreases |nodes| - i
      {
        if t.point.key == x as real {
          break;
        }
        tp := t;
        t, i := t.next, i + 1;
      }
      FindIs(s, x as real, i);
    }

    /** The relinking of insertNext, after node t at position i. */
    method LinkAfter(t: Node, temp: Node, ghost i: nat)
      requires Valid() && temp !in nodes && i < |nodes| && t == nodes[i] && (i == |nodes| - 1 ==> temp.next == null)
      modifies this, nodes, temp
      ensures Valid() && nodes == Inserted(old(nodes), i, temp)
    {
      if t.next == null {
        t.next := temp;
        tail := temp;
      } else {
        temp.next := t.next;
        t.next := temp;
      }
      ChainInserted(nodes, i, temp);
      InsertedDistinct(nodes, i, temp);
      nodes := Inserted(nodes, i, temp);
      assert Linked();
    }

    /** The node is put after the first node whose key is x; without one nothing happens. When
        that node is the last one, the new node's `next` is trusted to be null. */
    method InsertNext(temp: Node, x: int)
      requires Valid() && temp !in nodes
      requires nodes != [] && Find(Points(), x as real) == |nodes| - 1 ==> temp.next == null
      modifies this, nodes, temp
      ensures Valid()
      ensures nodes == Inserted(old(nodes), Find(old(Points()), x as real), temp)
      ensures Points() == Inserted(old(Points()), Find(old(Points()), x as real), temp.point)
    {
      var t, tp, i := Search(x);
      PointsInserted(nodes, i, temp);
      if t != null {
        LinkAfter(t, temp, i);
      }
    }

    /** The unlinking of deleteNode: of node t at position i, tp being the node before it, or t
        itself when it is the first. */
    method Unlink(t: Node, tp: Node, ghost i: nat)
      requires Valid() && i < |nodes| && t == nodes[i] && tp == nodes[if i == 0 then 0 else i - 1]
      modifies this, nodes
      ensures Valid() && nodes == Removed(old(nodes), i)
    {
      if t == tp {
        if head.next == null {
          head, tail := null, null;
        } else {
          head := t.next;
        }
      } else {
        if t.next == null {
          tail := tp;
          tp.next := null;
        } else {
          tp.next := t.next;
        }
      }
      ChainRemoved(nodes, i);
      RemovedDistinct(nodes, i);
      nodes := Removed(nodes, i);
      assert Linked();
    }

    /** The first node whose key is x is unlinked; without one nothing happens. */
    method DeleteNode(x: int)
      requires Valid()
      modifies this, nodes
      ensures Valid()
      ensures nodes == Removed(old(nodes), Find(old(Points()), x as real))
      ensures Points() == Removed(old(Points()), Find(old(Points()), x as real))
    {
      var t, tp, i := Search(x);
      PointsRemoved(nodes, i);
      if t != null {
        Unlink(t, tp, i);
      }
    }
  }
}
