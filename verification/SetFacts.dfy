/** Counting: the size of a union and of a subset. */
module SetFacts {

  lemma {:induction false} SubsetBound<T>(a: set<T>, b: set<T>)
    requires a <= b
    ensures |a| <= |b|
  {
    if a != {} {
      var x :| x in a;
      SubsetBound(a - {x}, b - {x});
    }
  }

  lemma Member<T>(a: set<T>) returns (x: T)
    requires a != {}
    ensures x in a
  {
    x :| x in a;
  }

  /** Whole numbers from lo to hi - 1: no more than hi - lo of them. */
  lemma {:induction false} RangeBound(a: set<int>, lo: int, hi: int)
    requires lo <= hi && forall x | x in a :: lo <= x < hi
    ensures |a| <= hi - lo
    decreases hi - lo
  {
    if a != {} {
      var x := Member(a);
      assert lo <= x < hi;
      RangeBound(a - {hi - 1}, lo, hi - 1);
      SubsetBound(a, (a - {hi - 1}) + {hi - 1});
    }
  }

  lemma UnionBound<T>(a: set<T>, b: set<T>)
    ensures |a + b| <= |a| + |b|
  {
  }

  /** A list has no more members than places, and as many if it has no duplicates. */
  lemma {:induction false} MembersBound(s: seq<int>)
    ensures |set b | b in s| <= |s|
    ensures (forall i, j | 0 <= i < j < |s| :: s[i] != s[j]) ==> |set b | b in s| == |s|
  {
    if s != [] {
      var n := |s| - 1;
      MembersBound(s[..n]);
      assert (set b | b in s) == (set b | b in s[..n]) + {s[n]};
    }
  }
}
