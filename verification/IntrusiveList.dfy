/** Doubly linked lists whose links live inside the elements, between a head and a tail sentinel. */
module IntrusiveList {
  import opened Queues

  class Elem {
    var prev: Elem?
    var next: Elem?

    constructor ()
      ensures prev == null && next == null
    {
      prev, next := null, null;
    }
  }

  lemma Inserted(c: seq<Elem>, d: seq<Elem>, i: nat, e: Elem)
    requires NoTwice(c) && e !in c && i <= |c| && d == c[..i] + [e] + c[i..]
    ensures NoTwice(d)
  {
    assert forall k :: 0 <= k < |d| ==> d[k] == if k < i then c[k] else if k == i then e else c[k - 1];
  }

  lemma Removed(c: seq<Elem>, d: seq<Elem>, i: nat)
    requires NoTwice(c) && i < |c| && d == c[..i] + c[i + 1..]
    ensures NoTwice(d)
  {
    assert forall k :: 0 <= k < |d| ==> d[k] == if k < i then c[k] else c[k + 1];
  }

  /** `nodes` is bookkeeping: the elements between the sentinels, in order. */
  class List {
    const head: Elem
    const tail: Elem
    ghost var nodes: seq<Elem>

    ghost function Chain(): seq<Elem>
      reads this
    {
      [head] + nodes + [tail]
    }

    /** Neighbours point at each other, and no element appears twice. */
    ghost predicate Valid()
      reads this, head, tail, Chain()
    {
      var c := Chain();
      && NoTwice(c) && head.prev == null && tail.next == null
      && (forall i :: 0 <= i < |c| - 1 ==> c[i].next == c[i + 1])
      && (forall i :: 0 < i < |c| ==> c[i].prev == c[i - 1])
    }

    constructor ()
      ensures Valid() && nodes == [] && fresh(head) && fresh(tail)
    {
      head := new Elem();
      tail := new Elem();
      nodes := [];
      new;
      head.prev, head.next := null, tail;
      tail.next, tail.prev := null, head;
    }

    /** Links `elem` in before `before`, which is the element at `i`, or the tail. */
    method InsertBefore(before: Elem, elem: Elem, ghost i: nat)
      requires Valid() && i <= |nodes| && before == (nodes + [tail])[i] && elem !in Chain()
      modifies this, Chain(), elem
      ensures Valid() && nodes == old(nodes)[..i] + [elem] + old(nodes)[i..]
    {
      ghost var c := Chain();
      assert before == c[i + 1] && before.prev == c[i];
      ghost var d := c[..i + 1] + [elem] + c[i + 1..];
      Inserted(c, d, i + 1, elem);
      before.prev.next := elem;
      elem.prev := before.prev;
      elem.next := before;
      before.prev := elem;
      nodes := nodes[..i] + [elem] + nodes[i..];
      assert Chain() == d;
      forall k | 0 <= k < |d| - 1 ensures d[k].next == d[k + 1] && d[k + 1].prev == d[k] {
        if k < i {
          assert d[k] == c[k] && d[k + 1] == c[k + 1] && c[k] != c[i] && c[k + 1] != c[i + 1];
        } else if k <= i + 1 {
          assert d[i] == c[i] && d[i + 1] == elem && d[i + 2] == c[i + 1] && c[i] != c[i + 1];
        } else {
          assert d[k] == c[k - 1] && d[k + 1] == c[k] && c[k - 1] != c[i] && c[k] != c[i + 1];
        }
      }
    }

    method Push(elem: Elem)
      requires Valid() && elem !in Chain()
      modifies this, Chain(), elem
      ensures Valid() && nodes == [elem] + old(nodes)
    {
      assert Chain()[0] == head && head.next == Chain()[1] == (nodes + [tail])[0];
      InsertBefore(head.next, elem, 0);
    }

    method Append(elem: Elem)
      requires Valid() && elem !in Chain()
      modifies this, Chain(), elem
      ensures Valid() && nodes == old(nodes) + [elem]
    {
      InsertBefore(tail, elem, |nodes|);
    }

    /** Unlinks the element at `i`, which keeps its own links. */
    method Remove(elem: Elem, ghost i: nat)
      requires Valid() && i < |nodes| && nodes[i] == elem
      modifies this, Chain()
      ensures Valid() && nodes == old(nodes)[..i] + old(nodes)[i + 1..]
      ensures elem.prev == old(elem.prev) && elem.next == old(elem.next)
    {
      ghost var c := Chain();
      assert elem == c[i + 1] && elem.prev == c[i] && elem.next == c[i + 2];
      ghost var d := c[..i + 1] + c[i + 2..];
      Removed(c, d, i + 1);
      elem.prev.next := elem.next;
      elem.next.prev := elem.prev;
      nodes := nodes[..i] + nodes[i + 1..];
      assert Chain() == d;
      forall k | 0 <= k < |d| - 1 ensures d[k].next == d[k + 1] && d[k + 1].prev == d[k] {
        if k < i {
          assert d[k] == c[k] && d[k + 1] == c[k + 1];
        } else if k == i {
          assert d[k] == c[i] && d[k + 1] == c[i + 2];
        } else {
          assert d[k] == c[k + 1] && d[k + 1] == c[k + 2];
        }
      }
    }

    method Pop() returns (elem: Elem)
      requires Valid() && nodes != []
      modifies this, Chain()
      ensures Valid() && elem == old(nodes)[0] && nodes == old(nodes)[1..]
    {
      assert Chain()[0] == head && head.next == Chain()[1] == nodes[0];
      elem := head.next;
      Remove(elem, 0);
    }

    method Empty() returns (r: bool)
      requires Valid()
      ensures r <==> nodes == []
    {
      assert Chain()[0] == head && head.next == Chain()[1];
      assert Chain()[|nodes| + 1] == tail;
      r := head.next == tail;
    }

    method Find(obj: Elem) returns (r: bool)
      requires Valid() && obj != head && obj != tail
      ensures r <==> obj in nodes
    {
      ghost var c := Chain();
      assert c[0] == head && c[|c| - 1] == tail && head.next == c[1];
      var elem := head.next;
      ghost var i := 1;
      while elem != tail
        invariant 1 <= i < |c| && elem == c[i] && obj !in c[1..i]
        decreases |c| - i
      {
        if elem == obj {
          assert nodes[i - 1] == obj;
          return true;
        }
        assert c[i].next == c[i + 1];
        elem := elem.next;
        i := i + 1;
      }
      assert i == |c| - 1 && c[1..i] == nodes;
      r := false;
    }

    method Length() returns (n: nat)
      requires Valid()
      ensures n == |nodes|
    {
      ghost var c := Chain();
      assert c[0] == head && c[|c| - 1] == tail && head.next == c[1];
      var elem := head.next;
      n := 0;
      while elem != tail
        invariant n + 1 < |c| && elem == c[n + 1]
        decreases |c| - n
      {
        assert c[n + 1].next == c[n + 2];
        elem := elem.next;
        n := n + 1;
      }
    }
  }
}
