/** The free list of the K&R allocator (umalloc.c) as a value: its blocks in address order,
    starting with the empty block `base`.  Addresses and sizes are in header units. */
module FreeList {

  datatype Blk = Blk(a: int, n: int)

  /** Block i is non-empty unless it is base, and lies below block i + 1. */
  predicate Step(fl: seq<Blk>, i: int)
    requires 0 <= i < |fl|
  {
    && (i > 0 ==> fl[i].n >= 1)
    && (i + 1 < |fl| ==> fl[i].a < fl[i + 1].a && fl[i].a + fl[i].n <= fl[i + 1].a)
  }

  /** Base first, in address order, no overlaps, and every block but base non-empty. */
  ghost predicate Ordered(fl: seq<Blk>, base: int) {
    && |fl| > 0 && fl[0] == Blk(base, 0)
    && forall i | 0 <= i < |fl| :: Step(fl, i)
  }

  predicate Touch(fl: seq<Blk>, i: int) { 0 <= i < |fl| - 1 && fl[i].a + fl[i].n == fl[i + 1].a }

  /** A well-formed free list: ordered, and no two free blocks are adjacent. */
  ghost predicate Good(fl: seq<Blk>, base: int) {
    Ordered(fl, base) && forall i | 0 <= i < |fl| :: !Touch(fl, i)
  }

  lemma {:induction false} Below(fl: seq<Blk>, base: int, i: int, j: int)
    requires Ordered(fl, base) && 0 <= i < j < |fl|
    ensures fl[i].a < fl[j].a && fl[i].a + fl[i].n <= fl[j].a && fl[j].n >= 1
  {
    assert Step(fl, j - 1) && Step(fl, j);
    if i < j - 1 { Below(fl, base, i, j - 1); }
  }

  predicate In(b: Blk, x: int) { b.a <= x < b.a + b.n }

  ghost predicate Covered(fl: seq<Blk>, x: int) { exists i :: 0 <= i < |fl| && In(fl[i], x) }

  ghost predicate SameCells(f: seq<Blk>, g: seq<Blk>) { forall x :: Covered(f, x) <==> Covered(g, x) }

  /** b shares no unit with the list. */
  ghost predicate Apart(fl: seq<Blk>, b: Blk) {
    forall i | 0 <= i < |fl| :: fl[i].a + fl[i].n <= b.a || b.a + b.n <= fl[i].a
  }

  /** fl[k] is the last block below address a. */
  predicate IsPred(fl: seq<Blk>, a: int, k: int) {
    0 <= k < |fl| && fl[k].a < a && (k + 1 < |fl| ==> a < fl[k + 1].a)
  }

  function After(fl: seq<Blk>, k: int, b: Blk): seq<Blk>
    requires 0 <= k < |fl|
  {
    fl[..k + 1] + [b] + fl[k + 1..]
  }

  function Join(fl: seq<Blk>, i: int): seq<Blk>
    requires 0 <= i < |fl| - 1
  {
    fl[..i] + [Blk(fl[i].a, fl[i].n + fl[i + 1].n)] + fl[i + 2..]
  }

  function JoinIfTouching(fl: seq<Blk>, i: int): seq<Blk> {
    if Touch(fl, i) then Join(fl, i) else fl
  }

  /** free's effect: b goes in after k, then joins the block above it, then the one below. */
  function Insert(fl: seq<Blk>, k: int, b: Blk): seq<Blk>
    requires 0 <= k < |fl|
  {
    JoinIfTouching(JoinIfTouching(After(fl, k, b), k + 1), k)
  }

  lemma AfterOrdered(fl: seq<Blk>, base: int, k: int, b: Blk)
    requires Ordered(fl, base) && IsPred(fl, b.a, k) && Apart(fl, b) && b.n >= 1
    ensures Ordered(After(fl, k, b), base)
  {
    var r := After(fl, k, b);
    forall j | 0 <= j < |r|
      ensures Step(r, j)
    {
      assert Step(fl, if j <= k then j else j - 1);
      if k + 1 < |fl| { assert Step(fl, k + 1); }
    }
  }

  lemma AfterCovers(fl: seq<Blk>, k: int, b: Blk, x: int)
    requires 0 <= k < |fl|
    ensures Covered(After(fl, k, b), x) <==> Covered(fl, x) || In(b, x)
  {
    var r := After(fl, k, b);
    assert r[k + 1] == b;
    if Covered(fl, x) {
      var j :| 0 <= j < |fl| && In(fl[j], x);
      assert In(r[if j <= k then j else j + 1], x);
    }
    if Covered(r, x) {
      var j :| 0 <= j < |r| && In(r[j], x);
      if j != k + 1 { assert In(fl[if j <= k then j else j - 1], x); }
    }
  }

  lemma JoinOrdered(fl: seq<Blk>, base: int, i: int)
    requires Ordered(fl, base) && Touch(fl, i)
    ensures i > 0 && Ordered(Join(fl, i), base)
  {
    var r := Join(fl, i);
    assert Step(fl, i) && Step(fl, i + 1);
    forall j | 0 <= j < |r|
      ensures Step(r, j)
    {
      assert Step(fl, if j <= i then j else j + 1);
    }
  }

  lemma JoinTouch(fl: seq<Blk>, i: int, j: int)
    requires Touch(fl, i) && Touch(Join(fl, i), j)
    ensures Touch(fl, if j < i then j else j + 1)
  {
  }

  lemma JoinCovers(fl: seq<Blk>, base: int, i: int, x: int)
    requires Ordered(fl, base) && Touch(fl, i)
    ensures Covered(Join(fl, i), x) <==> Covered(fl, x)
  {
    var r := Join(fl, i);
    assert Step(fl, i) && Step(fl, i + 1);
    if Covered(fl, x) {
      var j :| 0 <= j < |fl| && In(fl[j], x);
      assert In(r[if j <= i then j else j - 1], x);
    }
    if Covered(r, x) {
      var j :| 0 <= j < |r| && In(r[j], x);
      assert In(fl[if j < i || (j == i && In(fl[i], x)) then j else j + 1], x);
    }
  }

  lemma AfterTouch(fl: seq<Blk>, k: int, b: Blk, j: int)
    requires 0 <= k < |fl| && Touch(After(fl, k, b), j) && j != k && j != k + 1
    ensures Touch(fl, if j < k then j else j - 1)
  {
  }

  /** Freed memory is merged with its neighbours, and the list stays well-formed. */
  lemma InsertGood(fl: seq<Blk>, base: int, k: int, b: Blk)
    requires Good(fl, base) && IsPred(fl, b.a, k) && Apart(fl, b) && b.n >= 1
    ensures Good(Insert(fl, k, b), base)
  {
    hide Join, After, Touch;
    var f1 := After(fl, k, b);
    var f2 := JoinIfTouching(f1, k + 1);
    AfterOrdered(fl, base, k, b);
    if Touch(f1, k + 1) { JoinOrdered(f1, base, k + 1); }
    if Touch(f2, k) { JoinOrdered(f2, base, k); }
    forall j | 0 <= j < |Insert(fl, k, b)|
      ensures !Touch(Insert(fl, k, b), j)
    {
      if Touch(Insert(fl, k, b), j) { InsertTouch(fl, k, b, j); }
    }
  }

  /** Neighbours that touch after an insert already touched before it. */
  lemma InsertTouch(fl: seq<Blk>, k: int, b: Blk, j: int)
    requires 0 <= k < |fl| && Touch(Insert(fl, k, b), j)
    ensures exists i :: 0 <= i < |fl| && Touch(fl, i)
  {
    hide Join, After;
    var f1 := After(fl, k, b);
    var f2 := JoinIfTouching(f1, k + 1);
    var j2 := j;
    if Touch(f2, k) {
      JoinTouch(f2, k, j);
      j2 := if j < k then j else j + 1;
    }
    var j1 := j2;
    if Touch(f1, k + 1) {
      JoinTouch(f1, k + 1, j2);
      j1 := if j2 < k + 1 then j2 else j2 + 1;
    }
    AfterTouch(fl, k, b, j1);
  }

  /** Exactly the units of b become free. */
  lemma InsertCovers(fl: seq<Blk>, base: int, k: int, b: Blk, x: int)
    requires Good(fl, base) && IsPred(fl, b.a, k) && Apart(fl, b) && b.n >= 1
    ensures Covered(Insert(fl, k, b), x) <==> Covered(fl, x) || In(b, x)
  {
    hide Join, After, Covered;
    var f1 := After(fl, k, b);
    var f2 := JoinIfTouching(f1, k + 1);
    AfterOrdered(fl, base, k, b);
    AfterCovers(fl, k, b, x);
    if Touch(f1, k + 1) {
      JoinOrdered(f1, base, k + 1);
      JoinCovers(f1, base, k + 1, x);
    }
    if Touch(f2, k) { JoinCovers(f2, base, k, x); }
  }

  /** malloc's cut: the whole block, or its upper end. */
  function Take(fl: seq<Blk>, i: int, n: int): seq<Blk>
    requires 0 <= i < |fl|
  {
    if fl[i].n == n then fl[..i] + fl[i + 1..] else fl[i := Blk(fl[i].a, fl[i].n - n)]
  }

  /** The block that the cut yields. */
  function Taken(fl: seq<Blk>, i: int, n: int): Blk
    requires 0 <= i < |fl|
  {
    Blk(fl[i].a + fl[i].n - n, n)
  }

  lemma TakeGood(fl: seq<Blk>, base: int, i: int, n: int)
    requires Good(fl, base) && 0 <= i < |fl| && 1 <= n <= fl[i].n
    ensures i > 0 && Good(Take(fl, i, n), base) && Apart(Take(fl, i, n), Taken(fl, i, n))
  {
    var r := Take(fl, i, n);
    var gone := fl[i].n == n;
    assert Step(fl, i - 1) && Step(fl, i) && !Touch(fl, i - 1) && !Touch(fl, i);
    forall j | 0 <= j < |r|
      ensures Step(r, j) && !Touch(r, j)
    {
      var m := if gone && j >= i then j + 1 else j;
      assert Step(fl, m) && !Touch(fl, m);
    }
    forall j | 0 <= j < |r|
      ensures r[j].a + r[j].n <= Taken(fl, i, n).a || Taken(fl, i, n).a + n <= r[j].a
    {
      var m := if gone && j >= i then j + 1 else j;
      if m < i { Below(fl, base, m, i); }
      if i < m { Below(fl, base, i, m); }
    }
  }

  lemma TakeCovers(fl: seq<Blk>, base: int, i: int, n: int, x: int)
    requires Good(fl, base) && 0 <= i < |fl| && 1 <= n <= fl[i].n
    ensures Covered(fl, x) <==> Covered(Take(fl, i, n), x) || In(Taken(fl, i, n), x)
    ensures !(Covered(Take(fl, i, n), x) && In(Taken(fl, i, n), x))
  {
    var r := Take(fl, i, n);
    TakeGood(fl, base, i, n);
    if fl[i].n == n {
      assert forall j | 0 <= j < i :: r[j] == fl[j];
      assert forall j | i <= j < |r| :: r[j] == fl[j + 1];
    }
    if Covered(fl, x) {
      var j :| 0 <= j < |fl| && In(fl[j], x);
      if fl[i].n == n {
        if j < i { assert In(r[j], x); }
        if j > i { assert In(r[j - 1], x); }
      } else if !In(Taken(fl, i, n), x) {
        assert In(r[j], x);
      }
    }
    if Covered(r, x) {
      var j :| 0 <= j < |r| && In(r[j], x);
      if fl[i].n == n { assert In(fl[if j < i then j else j + 1], x); } else { assert In(fl[j], x); }
    }
    if In(Taken(fl, i, n), x) { assert In(fl[i], x); }
  }

  // ----- the list is determined by the memory that is free -----

  lemma Strict(fl: seq<Blk>, base: int, i: int, j: int)
    requires Good(fl, base) && 0 <= i < j < |fl|
    ensures fl[i].a + fl[i].n < fl[j].a
  {
    assert !Touch(fl, i) && Step(fl, i);
    if i + 1 < j { Below(fl, base, i + 1, j); }
  }

  /** Between two neighbours there is a unit that is not free. */
  lemma Gaps(fl: seq<Blk>, base: int, i: int)
    requires Good(fl, base) && 0 <= i < |fl|
    ensures !Covered(fl, fl[i].a + fl[i].n) && (i > 0 ==> !Covered(fl, fl[i].a - 1))
  {
    forall j | 0 <= j < |fl|
      ensures !In(fl[j], fl[i].a + fl[i].n) && (i > 0 ==> !In(fl[j], fl[i].a - 1))
    {
      if j < i { Strict(fl, base, j, i); }
      if i < j { Strict(fl, base, i, j); }
      assert Step(fl, i);
    }
  }

  lemma BlockOf(f: seq<Blk>, g: seq<Blk>, base: int, i: int) returns (j: int)
    requires Good(f, base) && Good(g, base) && SameCells(f, g) && 0 < i < |f|
    ensures 0 < j < |g| && g[j] == f[i]
  {
    hide Good;
    GoodFacts(f, base, i);
    assert In(f[i], f[i].a) && Covered(f, f[i].a);
    j :| 0 <= j < |g| && In(g[j], f[i].a);
    GoodFacts(g, base, j);
    SameStart(f, g, base, i, j);
    SameStart(g, f, base, j, i);
    SameEnd(f, g, base, i, j);
    SameEnd(g, f, base, j, i);
  }

  lemma GoodFacts(f: seq<Blk>, base: int, i: int)
    requires Good(f, base) && 0 <= i < |f|
    ensures i > 0 ==> f[i].n >= 1
    ensures f[i].n > 0 ==> i > 0
  {
    assert Step(f, i);
  }

  lemma SameStart(f: seq<Blk>, g: seq<Blk>, base: int, i: int, j: int)
    requires Good(f, base) && SameCells(f, g) && 0 < i < |f| && 0 <= j < |g|
    requires g[j].a <= f[i].a <= g[j].a + g[j].n
    ensures f[i].a <= g[j].a
  {
    hide Good;
    Gaps(f, base, i);
    assert !Covered(g, f[i].a - 1);
    assert !In(g[j], f[i].a - 1);
  }

  lemma SameEnd(f: seq<Blk>, g: seq<Blk>, base: int, i: int, j: int)
    requires Good(f, base) && SameCells(f, g) && 0 < i < |f| && 0 <= j < |g|
    requires g[j].a <= f[i].a + f[i].n
    ensures g[j].a + g[j].n <= f[i].a + f[i].n
  {
    hide Good;
    Gaps(f, base, i);
    assert !Covered(g, f[i].a + f[i].n);
    assert !In(g[j], f[i].a + f[i].n);
  }

  /** Which memory is free determines the free list: blocks, boundaries and order.  So the list
      never depends on the order in which blocks were freed. */
  lemma Canonical(f: seq<Blk>, g: seq<Blk>, base: int)
    requires Good(f, base) && Good(g, base) && SameCells(f, g)
    ensures f == g
  {
    SameUpTo(f, g, base, |f|);
    SameUpTo(g, f, base, |g|);
    assert f[..|f|] == f && g[..|g|] == g;
  }

  lemma {:induction false} SameUpTo(f: seq<Blk>, g: seq<Blk>, base: int, n: nat)
    requires Good(f, base) && Good(g, base) && SameCells(f, g) && n <= |f|
    ensures n <= |g| && forall i | 0 <= i < n :: f[i] == g[i]
  {
    if n > 1 {
      SameUpTo(f, g, base, n - 1);
      var j := BlockOf(f, g, base, n - 1);
      NoEarlier(f, g, base, n, j);
      var i := BlockOf(g, f, base, n - 1);
      NoEarlier(g, f, base, n, i);
      InOrder(f, base, n - 1, i);
      InOrder(g, base, n - 1, j);
    }
  }

  /** The copy of f[n-1] in g is not among the first n-1 blocks, which are f's. */
  lemma NoEarlier(f: seq<Blk>, g: seq<Blk>, base: int, n: nat, j: int)
    requires Good(f, base) && 1 < n <= |f| && n - 1 <= |g| && (forall i | 0 <= i < n - 1 :: f[i] == g[i])
    requires 0 < j < |g| && g[j] == f[n - 1]
    ensures j >= n - 1
  {
    if j < n - 1 {
      GoodFacts(f, base, j);
      Strict(f, base, j, n - 1);
    }
  }

  lemma InOrder(f: seq<Blk>, base: int, i: int, j: int)
    requires Good(f, base) && 0 <= i <= j < |f|
    ensures f[i].a <= f[j].a && (i < j ==> f[i].a < f[j].a)
  {
    if i < j { Below(f, base, i, j); }
  }

  /** Freeing two blocks gives the same list in either order. */
  lemma FreeCommutes(fl: seq<Blk>, base: int, a: Blk, b: Blk, ka: int, kb: int, kab: int, kba: int)
    requires Good(fl, base) && a.n >= 1 && b.n >= 1 && Apart(fl, a) && Apart(fl, b) && Apart([a], b)
    requires IsPred(fl, a.a, ka) && IsPred(fl, b.a, kb)
    requires base < a.a && base < b.a
    requires IsPred(Insert(fl, ka, a), b.a, kab) && IsPred(Insert(fl, kb, b), a.a, kba)
    ensures Insert(Insert(fl, ka, a), kab, b) == Insert(Insert(fl, kb, b), kba, a)
  {
    hide Insert, Good, Covered;
    var f, g := Insert(fl, ka, a), Insert(fl, kb, b);
    assert Apart([b], a) by { assert [a][0] == a; }
    InsertGood(fl, base, ka, a);
    InsertGood(fl, base, kb, b);
    StillApart(fl, base, ka, a, b);
    StillApart(fl, base, kb, b, a);
    InsertGood(f, base, kab, b);
    InsertGood(g, base, kba, a);
    forall x
      ensures Covered(Insert(f, kab, b), x) <==> Covered(Insert(g, kba, a), x)
    {
      InsertCovers(fl, base, ka, a, x);
      InsertCovers(fl, base, kb, b, x);
      InsertCovers(f, base, kab, b, x);
      InsertCovers(g, base, kba, a, x);
    }
    Canonical(Insert(f, kab, b), Insert(g, kba, a), base);
  }

  lemma ApartMeans(fl: seq<Blk>, base: int, b: Blk)
    requires Ordered(fl, base) && b.n >= 1 && base < b.a
    ensures Apart(fl, b) <==> forall x | In(b, x) :: !Covered(fl, x)
  {
    if Apart(fl, b) {
      forall x | In(b, x)
        ensures !Covered(fl, x)
      {
      }
    }
    if forall x | In(b, x) :: !Covered(fl, x) {
      forall i | 0 <= i < |fl|
        ensures fl[i].a + fl[i].n <= b.a || b.a + b.n <= fl[i].a
      {
        assert Step(fl, i);
        if i > 0 {
          var x := if fl[i].a < b.a then b.a else fl[i].a;
          assert In(b, x) ==> !Covered(fl, x);
          assert In(fl[i], x) ==> Covered(fl, x);
        }
      }
    }
  }

  lemma StillApart(fl: seq<Blk>, base: int, k: int, a: Blk, b: Blk)
    requires Good(fl, base) && IsPred(fl, a.a, k) && Apart(fl, a) && Apart(fl, b) && Apart([a], b)
    requires a.n >= 1 && b.n >= 1
    requires base < b.a
    ensures Apart(Insert(fl, k, a), b)
  {
    hide Insert, Covered, Apart;
    InsertGood(fl, base, k, a);
    ApartMeans(fl, base, b);
    ApartMeans(Insert(fl, k, a), base, b);
    forall x | In(b, x)
      ensures !Covered(Insert(fl, k, a), x)
    {
      InsertCovers(fl, base, k, a, x);
      NotBoth(a, b, x);
    }
  }

  lemma NotBoth(a: Blk, b: Blk, x: int)
    requires Apart([a], b)
    ensures !(In(a, x) && In(b, x))
  {
    assert [a][0] == a;
  }

  /** free undoes malloc: putting back the block that was cut restores the list exactly. */
  lemma FreeUndoesMalloc(fl: seq<Blk>, base: int, i: int, n: int, k: int)
    requires Good(fl, base) && 0 <= i < |fl| && 1 <= n <= fl[i].n
    requires IsPred(Take(fl, i, n), Taken(fl, i, n).a, k)
    ensures Insert(Take(fl, i, n), k, Taken(fl, i, n)) == fl
  {
    hide Insert, Good, Covered, Take, Apart;
    TakeGood(fl, base, i, n);
    InsertGood(Take(fl, i, n), base, k, Taken(fl, i, n));
    forall x
      ensures Covered(Insert(Take(fl, i, n), k, Taken(fl, i, n)), x) <==> Covered(fl, x)
    {
      InsertCovers(Take(fl, i, n), base, k, Taken(fl, i, n), x);
      TakeCovers(fl, base, i, n, x);
    }
    Canonical(Insert(Take(fl, i, n), k, Taken(fl, i, n)), fl, base);
  }
}
