/** Sequences used as lists of distinct elements. */
module Queues {
  ghost predicate NoTwice<T>(s: seq<T>) {
    forall i, j :: 0 <= i < j < |s| ==> s[i] != s[j]
  }

  /** The list without its first occurrence of `t`. */
  function Without<T(==)>(l: seq<T>, t: T): seq<T> {
    if l == [] then [] else if l[0] == t then l[1..] else [l[0]] + Without(l[1..], t)
  }

  lemma Enqueued<T>(l: seq<T>, t: T)
    requires NoTwice(l) && t !in l
    ensures NoTwice(l + [t]) && NoTwice([t] + l)
  {
  }

  lemma Dequeued<T>(l: seq<T>, t: T)
    requires NoTwice(l) && l != []
    ensures NoTwice(l[1..]) && (t in l[1..] <==> t in l && t != l[0])
  {
    if t in l && t != l[0] {
      var k :| 0 <= k < |l| && l[k] == t;
      assert l[1..][k - 1] == t;
    }
  }

  lemma {:induction false} WithoutHas<T>(l: seq<T>, t: T)
    requires NoTwice(l)
    ensures NoTwice(Without(l, t)) && forall u :: u in Without(l, t) <==> u in l && u != t
  {
    if l != [] {
      Dequeued(l, t);
      WithoutHas(l[1..], t);
      forall u ensures u in Without(l, t) <==> u in l && u != t {
        Dequeued(l, u);
      }
      Dequeued(l, l[0]);
      if l[0] != t {
        assert l[0] !in Without(l[1..], t);
      }
    }
  }

  lemma {:induction false} WithoutNone<T>(l: seq<T>, t: T)
    ensures t !in l ==> Without(l, t) == l
  {
    if l != [] {
      WithoutNone(l[1..], t);
    }
  }
}

/** Cardinalities of finite sets of numbers. */
module FiniteSets {
  /** The `n` numbers from `start` on. */
  ghost function RunOf(start: nat, n: nat): (r: set<nat>)
    ensures |r| == n && forall i :: i in r <==> start <= i < start + n
  {
    if n == 0 then {} else RunOf(start, n - 1) + {start + n - 1}
  }

  lemma {:induction false} SubsetSize(s: set<nat>, t: set<nat>)
    requires s <= t
    ensures |s| <= |t| && (|s| == |t| ==> s == t)
  {
    if s != {} {
      var x :| x in s;
      SubsetSize(s - {x}, t - {x});
    }
  }
}
