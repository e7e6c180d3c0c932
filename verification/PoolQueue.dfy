/** The intrusive lists of skpQueue.h: a head with first and last pointers, and in every node a
    next and a prev pointer.  Each macro is proved to do what it should to the sequence of nodes. */
module PoolQueue {

  datatype Ref = Null | To(node: int)

  /** Where a list goes on behind and before its `k`-th node. */
  ghost function Behind(s: seq<int>, k: int): Ref { if 0 <= k + 1 < |s| then To(s[k + 1]) else Null }
  ghost function Before(s: seq<int>, k: int): Ref { if 0 <= k - 1 < |s| then To(s[k - 1]) else Null }

  ghost predicate Distinct(s: seq<int>) {
    forall i, j :: 0 <= i < j < |s| ==> s[i] != s[j]
  }

  function InsertAt(s: seq<int>, k: nat, x: int): seq<int>
    requires k <= |s|
  {
    s[..k] + [x] + s[k..]
  }

  function RemoveAt(s: seq<int>, k: nat): seq<int>
    requires k < |s|
  {
    s[..k] + s[k + 1..]
  }

  class Queue {
    var first: Ref
    var last: Ref
    var next: map<int, Ref>
    var prev: map<int, Ref>

    /** The list consists of the nodes `s`, in this order. */
    ghost predicate Holds(s: seq<int>)
      reads this
    {
      && Distinct(s)
      && first == Behind(s, -1) && last == Before(s, |s|)
      && forall k :: 0 <= k < |s| ==> Linked(s, k)
    }

    ghost predicate Linked(s: seq<int>, k: int)
      requires 0 <= k < |s|
      reads this
    {
      s[k] in next && s[k] in prev && next[s[k]] == Behind(s, k) && prev[s[k]] == Before(s, k)
    }

    /** `QUEUE_INIT` */
    constructor ()
      ensures Holds([])
    {
      first, last, next, prev := Null, Null, map[], map[];
    }

    /** `QUEUE_INSETT_LAST` */
    method InsertLast(node: int, ghost s: seq<int>)
      requires Holds(s) && node !in s
      modifies this
      ensures Holds(s + [node])
    {
      if first == Null {
        first, last := To(node), To(node);
        prev, next := prev[node := Null], next[node := Null];
      } else {
        assert last == To(s[|s| - 1]) && Linked(s, |s| - 1);
        next := next[last.node := To(node)];
        prev, next := prev[node := last], next[node := Null];
        last := To(node);
      }
      forall k | 0 <= k < |s| ensures Linked(s + [node], k) {
        assert old(Linked(s, k));
      }
    }

    /** `QUEUE_INSETT_NODE`: behind a node of the list. */
    method InsertNode(node: int, node2: int, ghost s: seq<int>, ghost at: nat)
      requires Holds(s) && at < |s| && s[at] == node && node2 !in s
      modifies this
      ensures Holds(InsertAt(s, at + 1, node2))
    {
      if last == To(node) {
        assert at == |s| - 1;
        InsertLast(node2, s);
        assert InsertAt(s, at + 1, node2) == s + [node2];
      } else {
        ghost var s' := InsertAt(s, at + 1, node2);
        assert Linked(s, at) && Linked(s, at + 1);
        var behind := next[node];
        prev := prev[behind.node := To(node2)];
        next, prev := next[node2 := behind], prev[node2 := To(node)];
        next := next[node := To(node2)];
        assert Distinct(s') by {
          forall i, j | 0 <= i < j < |s'| ensures s'[i] != s'[j] {
            Position(s, at + 1, node2, i);
            Position(s, at + 1, node2, j);
          }
        }
        forall k | 0 <= k < |s'| ensures Linked(s', k) {
          if k <= at { assert old(Linked(s, k)); } else if k > at + 1 { assert old(Linked(s, k - 1)); }
        }
      }
    }

    /** `QUEUE_REMOVE` */
    method Remove(node: int, ghost s: seq<int>, ghost at: nat)
      requires Holds(s) && at < |s| && s[at] == node
      modifies this
      ensures Holds(RemoveAt(s, at))
    {
      ghost var s' := RemoveAt(s, at);
      assert Linked(s, at);
      if first == last {
        assert |s| == 1;
        first, last := Null, Null;
        assert s' == [];
      } else if prev[node] == Null {
        assert at == 0 && Linked(s, 1);
        first := next[node];
        next := next[node := Null];
        prev := prev[first.node := Null];
      } else if next[node] == Null {
        assert at == |s| - 1 && Linked(s, at - 1);
        last := prev[node];
        prev := prev[node := Null];
        next := next[last.node := Null];
      } else {
        assert Linked(s, at - 1) && Linked(s, at + 1);
        next := next[prev[node].node := next[node]];
        prev := prev[next[node].node := prev[node]];
        prev, next := prev[node := Null], next[node := Null];
      }
      forall k | 0 <= k < |s'| ensures Linked(s', k) {
        if k < at { assert old(Linked(s, k)); } else { assert old(Linked(s, k + 1)); }
      }
    }
  }

  lemma Position(s: seq<int>, at: nat, x: int, i: nat)
    requires at <= |s| && i <= |s|
    ensures InsertAt(s, at, x)[i] == if i < at then s[i] else if i == at then x else s[i - 1]
  {
  }
}
