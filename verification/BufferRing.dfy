/** The doubly linked ring of bio.c: buffers 0 .. n-1 and the list head n, linked through next and
    prev.  `order` lists the buffers from the head on. */
module BufferRing {

  /** Position -1 and position |order| are both the head. */
  function At(order: seq<int>, n: int, i: int): int {
    if 0 <= i < |order| then order[i] else n
  }

  ghost predicate Distinct(order: seq<int>, n: int) {
    && (forall i | 0 <= i < |order| :: 0 <= order[i] < n)
    && (forall i, j | 0 <= i < j < |order| :: order[i] != order[j])
  }

  ghost predicate Link(next: seq<int>, prev: seq<int>, order: seq<int>, n: int, i: int)
    requires |next| == |prev| == n + 1 && Distinct(order, n) && 0 <= n
  {
    next[At(order, n, i)] == At(order, n, i + 1) && prev[At(order, n, i + 1)] == At(order, n, i)
  }

  ghost predicate Ring(next: seq<int>, prev: seq<int>, order: seq<int>, n: int) {
    && 0 <= n && |next| == |prev| == n + 1 && Distinct(order, n)
    && forall i | -1 <= i < |order| :: Link(next, prev, order, n, i)
  }

  function Without(order: seq<int>, k: int): seq<int>
    requires 0 <= k < |order|
  {
    order[..k] + order[k + 1..]
  }

  /** A buffer is taken out by pointing its two neighbours at each other. */
  lemma UnlinkKeepsRing(next: seq<int>, prev: seq<int>, order: seq<int>, n: int, k: int, next': seq<int>,
                        prev': seq<int>)
    requires Ring(next, prev, order, n) && 0 <= k < |order|
    requires 0 <= prev[order[k]] <= n && 0 <= next[order[k]] <= n
    requires next' == next[prev[order[k]] := next[order[k]]] && prev' == prev[next[order[k]] := prev[order[k]]]
    ensures Ring(next', prev', Without(order, k), n)
  {
    var o := Without(order, k);
    assert Link(next, prev, order, n, k - 1) && Link(next, prev, order, n, k);
    forall i | -1 <= i < |o|
      ensures Link(next', prev', o, n, i)
    {
      if i < k {
        assert Link(next, prev, order, n, i);
      } else {
        assert Link(next, prev, order, n, i + 1);
      }
      assert At(o, n, i) == if i < k then At(order, n, i) else At(order, n, i + 1);
      assert At(o, n, i + 1) == if i + 1 < k then At(order, n, i + 1) else At(order, n, i + 2);
    }
  }

  /** A buffer is put in front by placing it between the head and the buffer that was first. */
  lemma InsertKeepsRing(next: seq<int>, prev: seq<int>, order: seq<int>, n: int, b: int, next': seq<int>,
                        prev': seq<int>)
    requires Ring(next, prev, order, n) && 0 <= b < n && b !in order && 0 <= next[n] <= n
    requires next' == next[b := next[n]][n := b] && prev' == prev[b := n][next[n] := b]
    ensures Ring(next', prev', [b] + order, n)
  {
    var o := [b] + order;
    assert Link(next, prev, order, n, -1);
    forall i | -1 <= i < |o|
      ensures Link(next', prev', o, n, i)
    {
      if i >= 1 { assert Link(next, prev, order, n, i - 1); }
      assert i >= 1 ==> At(o, n, i) == At(order, n, i - 1);
      assert i >= 0 ==> At(o, n, i + 1) == At(order, n, i);
    }
  }

  lemma RingInRange(next: seq<int>, prev: seq<int>, order: seq<int>, n: int, i: int)
    requires Ring(next, prev, order, n) && 0 <= i <= |order|
    ensures next[n] == At(order, n, 0) && prev[n] == At(order, n, |order| - 1)
    ensures i < |order| ==>
      0 <= order[i] < n && next[order[i]] == At(order, n, i + 1) && prev[order[i]] == At(order, n, i - 1)
    ensures 0 <= At(order, n, i) <= n && 0 <= At(order, n, i + 1) <= n
    ensures 0 <= At(order, n, i - 1) <= n && 0 <= next[n] <= n
  {
    assert Link(next, prev, order, n, -1) && Link(next, prev, order, n, |order| - 1);
    if i < |order| { assert Link(next, prev, order, n, i) && Link(next, prev, order, n, i - 1); }
  }

  /** Moving an element to the front keeps the elements and keeps them distinct. */
  lemma FrontDistinct(order: seq<int>, n: int, k: int)
    requires Distinct(order, n) && 0 <= k < |order|
    ensures Distinct([order[k]] + Without(order, k), n) && order[k] !in Without(order, k)
  {
  }

  lemma FrontKeeps(order: seq<int>, k: int, b: int)
    requires 0 <= k < |order| && b in order
    ensures b in [order[k]] + Without(order, k)
  {
  }
}
