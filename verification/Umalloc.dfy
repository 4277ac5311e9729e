/** malloc, free and morecore of umalloc.c over the headers they relink in place, proved against
    FreeList. */
module Umalloc {
  import opened FreeList
  import opened Params

  /** Header units for a request, in the 32-bit arithmetic of the code. */
  function Nunits(nbytes: int): int { (nbytes + 8 - 1) % UINT / 8 + 1 }

  /** The header and the payload fit, exactly up to the request at which the sum wraps. */
  lemma EnoughUnits(nbytes: int)
    requires 0 <= nbytes < UINT
    ensures 1 <= Nunits(nbytes)
    ensures (Nunits(nbytes) - 1) * 8 >= nbytes <==> nbytes <= UINT - 8
    ensures nbytes <= UINT - 8 ==> (Nunits(nbytes) - 2) * 8 < nbytes
  {
  }

  /** The int that morecore passes to sbrk: the byte count of nu units in 32 bits, read as signed. */
  function SbrkBytes(nu: int): int {
    var u := nu * 8 % UINT;
    if u >= UINT / 2 then u - UINT else u
  }

  /** sbrk is asked for the memory that is needed exactly below 2^31 bytes; from there on it is asked
      for nothing, or to give memory back. */
  lemma SbrkGrowsIff(nu: int)
    requires 0 < nu <= UINT / 8
    ensures SbrkBytes(nu) == nu * 8 <==> nu * 8 < UINT / 2
    ensures SbrkBytes(nu) <= 0 <==> nu * 8 >= UINT / 2
    ensures SbrkBytes(nu) % 8 == 0
  {
    assert nu * 8 % UINT == if nu * 8 == UINT then 0 else nu * 8;
  }

  /** growproc maps whole pages of 512 units, so the last one may reach above the break. */
  function Mapped(brk: int): int { (brk + 511) / 512 * 512 }

  /** A header stored at the old break traps if and only if the break, which may have gone down, left
      no page mapped there: always from a break between two pages, and never, if sbrk gave nothing,
      from one inside a page, as growing by 4097 units leaves it. */
  lemma StoreTraps(end: int, brk: int)
    requires 0 < brk <= end
    ensures end % 512 == 0 ==> Mapped(brk) <= end
    ensures end % 512 != 0 && brk == end ==> end < Mapped(brk)
    ensures end % 512 == 0 ==> (end + 4097) % 512 != 0
  {
  }

  function Next(fl: seq<Blk>, i: int): int { if i + 1 < |fl| then i + 1 else 0 }

  /** Header i holds the block's size and points to the next block, the last one back to base. */
  predicate LinkAt(fl: seq<Blk>, ptr: map<int, int>, size: map<int, int>, i: int)
    requires 0 <= i < |fl|
  {
    && fl[i].a in ptr && ptr[fl[i].a] == fl[Next(fl, i)].a
    && fl[i].a in size && size[fl[i].a] == fl[i].n
  }

  ghost predicate Linked(fl: seq<Blk>, ptr: map<int, int>, size: map<int, int>) {
    forall i | 0 <= i < |fl| :: LinkAt(fl, ptr, size, i)
  }

  function Units(b: Blk): set<int> { set x | b.a <= x < b.a + b.n && In(b, x) }

  predicate LiveCovers(live: map<int, int>, x: int) { exists a :: a in live && a <= x < a + live[a] }

  ghost predicate LiveApart(live: map<int, int>) {
    forall a, b | a in live && b in live && a < b :: a + live[a] <= b
  }

  /** Every unit obtained from sbrk is in one free block or in one live block, never both. */
  ghost predicate Sound(base: int, brk: int, fl: seq<Blk>, live: map<int, int>, size: map<int, int>, got: set<int>) {
    && 0 < base < brk && Good(fl, base)
    && (forall i | 0 <= i < |fl| :: fl[i].a + fl[i].n <= brk)
    && (forall a | a in live :: base < a && 1 <= live[a] && a + live[a] <= brk && a in size && size[a] == live[a])
    && (forall a | a in live :: Apart(fl, Blk(a, live[a])))
    && LiveApart(live)
    && (forall x :: x in got <==> Covered(fl, x) || LiveCovers(live, x))
  }

  // ----- relinking -----

  lemma AfterLinked(fl: seq<Blk>, base: int, k: int, b: Blk, ptr: map<int, int>, size: map<int, int>)
    requires Ordered(fl, base) && IsPred(fl, b.a, k) && Linked(fl, ptr, size)
    requires b.a in size && size[b.a] == b.n && Ordered(After(fl, k, b), base)
    ensures fl[k].a in ptr && Linked(After(fl, k, b), ptr[b.a := ptr[fl[k].a]][fl[k].a := b.a], size)
  {
    assert LinkAt(fl, ptr, size, k);
    var r := After(fl, k, b);
    var ptr' := ptr[b.a := ptr[fl[k].a]][fl[k].a := b.a];
    forall j | 0 <= j < |r|
      ensures LinkAt(r, ptr', size, j)
    {
      if j <= k { assert LinkAt(fl, ptr, size, j); }
      if j < k { Below(r, base, j, k); Below(r, base, j, k + 1); }
      if j > k + 1 {
        assert LinkAt(fl, ptr, size, j - 1);
        Below(r, base, k, j);
        Below(r, base, k + 1, j);
      }
    }
  }

  lemma JoinLinked(fl: seq<Blk>, base: int, i: int, ptr: map<int, int>, size: map<int, int>)
    requires Ordered(fl, base) && Touch(fl, i) && Linked(fl, ptr, size)
    ensures fl[i + 1].a in ptr
    ensures Linked(Join(fl, i), ptr[fl[i].a := ptr[fl[i + 1].a]], size[fl[i].a := fl[i].n + fl[i + 1].n])
  {
    assert LinkAt(fl, ptr, size, i) && LinkAt(fl, ptr, size, i + 1);
    var r := Join(fl, i);
    var ptr', size' := ptr[fl[i].a := ptr[fl[i + 1].a]], size[fl[i].a := fl[i].n + fl[i + 1].n];
    forall j | 0 <= j < |r|
      ensures LinkAt(r, ptr', size', j)
    {
      if j < i {
        assert LinkAt(fl, ptr, size, j);
        Below(fl, base, j, i);
      }
      if j > i {
        assert LinkAt(fl, ptr, size, j + 1);
        Below(fl, base, i, j + 1);
      }
    }
  }

  /** The header updates of free, once p is found. */
  function Relinked(ptr: map<int, int>, size: map<int, int>, p: int, bp: int): (map<int, int>, map<int, int>)
    requires p in ptr && p in size && bp in size && ptr[p] in ptr && ptr[p] in size
  {
    var q := ptr[p];
    var up := bp + size[bp] == q;
    var size1 := if up then size[bp := size[bp] + size[q]] else size;
    var ptr1 := ptr[bp := if up then ptr[q] else q];
    if p + size1[p] == bp then (ptr1[p := ptr1[bp]], size1[p := size1[p] + size1[bp]])
    else (ptr1[p := bp], size1)
  }

  lemma RelinkedIsInsert(fl: seq<Blk>, base: int, k: int, b: Blk, ptr: map<int, int>, size: map<int, int>)
    requires Good(fl, base) && IsPred(fl, b.a, k) && Apart(fl, b) && b.n >= 1 && base < b.a
    requires Linked(fl, ptr, size) && b.a in size && size[b.a] == b.n
    ensures var p := fl[k].a;
      && p in ptr && p in size && ptr[p] in ptr && ptr[p] in size
      && Linked(Insert(fl, k, b), Relinked(ptr, size, p, b.a).0, Relinked(ptr, size, p, b.a).1)
  {
    hide Covered, Apart, Linked, Join, After;
    var p := fl[k].a;
    LinkFacts(fl, ptr, size, k);
    LinkFacts(fl, ptr, size, Next(fl, k));
    var q := ptr[p];
    AfterOrdered(fl, base, k, b);
    AfterLinked(fl, base, k, b, ptr, size);
    var f1 := After(fl, k, b);
    var p1 := ptr[b.a := q][p := b.a];
    AfterIs(fl, k, b);
    Below(f1, base, k, k + 1);
    if k > 0 { Below(fl, base, 0, k); }
    var up := b.a + b.n == q;
    assert up <==> Touch(f1, k + 1);
    var f2 := JoinIfTouching(f1, k + 1);
    var p2 := if up then p1[b.a := ptr[q]] else p1;
    var s2 := if up then size[b.a := b.n + size[q]] else size;
    if up {
      JoinLinked(f1, base, k + 1, p1, size);
      JoinOrdered(f1, base, k + 1);
      Below(f1, base, k + 1, k + 2);
      JoinIs(f1, k + 1);
    }
    assert Linked(f2, p2, s2) && Ordered(f2, base);
    assert f2[k] == fl[k] && f2[k + 1].a == b.a && f2[k + 1].n == s2[b.a];
    if Touch(f2, k) {
      JoinLinked(f2, base, k, p2, s2);
      assert Relinked(ptr, size, p, b.a).0 == p2[p := p2[b.a]];
      assert Relinked(ptr, size, p, b.a).1 == s2[p := fl[k].n + s2[b.a]];
    } else {
      assert Relinked(ptr, size, p, b.a).0 == p2;
    }
  }

  lemma LinkFacts(fl: seq<Blk>, ptr: map<int, int>, size: map<int, int>, i: int)
    requires Linked(fl, ptr, size) && 0 <= i < |fl|
    ensures LinkAt(fl, ptr, size, i)
  {
  }

  lemma AfterIs(fl: seq<Blk>, k: int, b: Blk)
    requires 0 <= k < |fl|
    ensures var r := After(fl, k, b);
      |r| == |fl| + 1 && r[k] == fl[k] && r[k + 1] == b && (k + 1 < |fl| ==> r[k + 2] == fl[k + 1])
  {
  }

  lemma JoinIs(fl: seq<Blk>, i: int)
    requires 0 < i < |fl| - 1
    ensures Join(fl, i)[i] == Blk(fl[i].a, fl[i].n + fl[i + 1].n) && Join(fl, i)[i - 1] == fl[i - 1]
    ensures |Join(fl, i)| == |fl| - 1
  {
  }

  /** Cutting block i short, or unlinking it from its predecessor. */
  lemma TakeLinked(fl: seq<Blk>, base: int, i: int, n: int, ptr: map<int, int>, size: map<int, int>)
    requires Good(fl, base) && 0 < i < |fl| && 1 <= n <= fl[i].n && Linked(fl, ptr, size)
    ensures fl[i].a in ptr
    ensures fl[i].n == n ==> Linked(Take(fl, i, n), ptr[fl[i - 1].a := ptr[fl[i].a]], size)
    ensures fl[i].n > n ==> Linked(Take(fl, i, n), ptr, size[fl[i].a := fl[i].n - n][Taken(fl, i, n).a := n])
  {
    assert LinkAt(fl, ptr, size, i) && LinkAt(fl, ptr, size, i - 1);
    var r := Take(fl, i, n);
    var ptr' := ptr[fl[i - 1].a := ptr[fl[i].a]];
    var size' := size[fl[i].a := fl[i].n - n][Taken(fl, i, n).a := n];
    forall j | 0 <= j < |r|
      ensures fl[i].n == n ==> LinkAt(r, ptr', size, j)
      ensures fl[i].n > n ==> LinkAt(r, ptr, size', j)
    {
      var m := if fl[i].n == n && j >= i then j + 1 else j;
      assert LinkAt(fl, ptr, size, m);
      if m < i { Below(fl, base, m, i); }
      if m > i { Below(fl, base, i, m); }
      if m < i - 1 { Below(fl, base, m, i - 1); }
      if m > i - 1 { Below(fl, base, i - 1, m); }
    }
  }

  // ----- the partition of memory -----

  lemma LiveIsNotHeader(base: int, brk: int, fl: seq<Blk>, live: map<int, int>, size: map<int, int>, got: set<int>,
                        a: int, i: int)
    requires Sound(base, brk, fl, live, size, got) && a in live && 0 <= i < |fl|
    ensures fl[i].a != a
  {
    hide Covered, Touch;
    assert Apart(fl, Blk(a, live[a]));
    assert Step(fl, i);
  }

  lemma TakeSound(base: int, brk: int, fl: seq<Blk>, live: map<int, int>, size: map<int, int>, got: set<int>, i: int,
                  n: int, size': map<int, int>)
    requires Sound(base, brk, fl, live, size, got) && 0 <= i < |fl| && 1 <= n <= fl[i].n
    requires size'.Keys >= size.Keys && Taken(fl, i, n).a in size' && size'[Taken(fl, i, n).a] == n
    requires forall a | a in size && a != fl[i].a && a != Taken(fl, i, n).a :: size'[a] == size[a]
    ensures Taken(fl, i, n).a !in live
    ensures Sound(base, brk, Take(fl, i, n), live[Taken(fl, i, n).a := n], size', got)
  {
    var b := Taken(fl, i, n);
    TakeGood(fl, base, i, n);
    TakenIsFree(base, brk, fl, live, size, got, i, n);
    var live' := live[b.a := n];
    forall a | a in live'
      ensures base < a && 1 <= live'[a] && a + live'[a] <= brk && a in size' && size'[a] == live'[a]
      ensures Apart(Take(fl, i, n), Blk(a, live'[a]))
    {
      if a != b.a { LiveStays(base, brk, fl, live, size, got, i, n, a); }
    }
    forall x
      ensures x in got <==> Covered(Take(fl, i, n), x) || LiveCovers(live', x)
    {
      hide Covered, Apart, Good;
      TakeCovers(fl, base, i, n, x);
      LiveAdd(live, b, x);
    }
    TakeBounds(fl, base, i, n, brk);
  }

  lemma TakeBounds(fl: seq<Blk>, base: int, i: int, n: int, brk: int)
    requires Good(fl, base) && 0 < i < |fl| && 1 <= n <= fl[i].n
    requires forall j | 0 <= j < |fl| :: fl[j].a + fl[j].n <= brk
    ensures forall j | 0 <= j < |Take(fl, i, n)| :: Take(fl, i, n)[j].a + Take(fl, i, n)[j].n <= brk
  {
  }

  lemma LiveAdd(live: map<int, int>, b: Blk, x: int)
    requires b.a !in live
    ensures LiveCovers(live[b.a := b.n], x) <==> LiveCovers(live, x) || In(b, x)
  {
    var l := live[b.a := b.n];
    if LiveCovers(live, x) {
      var a :| a in live && a <= x < a + live[a];
      assert a in l && l[a] == live[a];
    }
    if In(b, x) { assert b.a in l && l[b.a] == b.n; }
  }

  /** The block cut off is above base, below brk and away from every live block. */
  lemma TakenIsFree(base: int, brk: int, fl: seq<Blk>, live: map<int, int>, size: map<int, int>, got: set<int>, i: int,
                    n: int)
    requires Sound(base, brk, fl, live, size, got) && 0 <= i < |fl| && 1 <= n <= fl[i].n
    ensures var b := Taken(fl, i, n);
      && base < b.a && b.a + n <= brk && b.a !in live
      && forall a | a in live :: a + live[a] <= b.a || b.a + n <= a
  {
    hide Covered, Touch;
    TakeGood(fl, base, i, n);
    Below(fl, base, 0, i);
    forall a | a in live
      ensures a + live[a] <= Taken(fl, i, n).a || Taken(fl, i, n).a + n <= a
    {
      assert Apart(fl, Blk(a, live[a]));
    }
  }

  lemma LiveStays(base: int, brk: int, fl: seq<Blk>, live: map<int, int>, size: map<int, int>, got: set<int>, i: int,
                  n: int, a: int)
    requires Sound(base, brk, fl, live, size, got) && 0 <= i < |fl| && 1 <= n <= fl[i].n && a in live
    ensures a != fl[i].a && Apart(Take(fl, i, n), Blk(a, live[a]))
  {
  }

  /** A block that goes in above all others ends where the last block of the list then ends. */
  lemma InsertLast(fl: seq<Blk>, base: int, k: int, b: Blk, n: int)
    requires Good(fl, base) && IsPred(fl, b.a, k) && k == |fl| - 1 && b.n >= n
    requires forall i | 0 <= i < |fl| :: fl[i].n < n
    ensures forall i | 0 <= i < |Insert(fl, k, b)| && Insert(fl, k, b)[i].n >= n ::
      Insert(fl, k, b)[i].a + Insert(fl, k, b)[i].n == b.a + b.n
  {
  }

  lemma LastIsPred(fl: seq<Blk>, base: int, a: int, k: int)
    requires Ordered(fl, base) && IsPred(fl, a, k) && forall i | 0 <= i < |fl| :: fl[i].a + fl[i].n <= a
    ensures k == |fl| - 1
  {
    if k + 1 < |fl| { Below(fl, base, 0, k + 1); }
  }

  /** Putting a block in: one that was live, or fresh memory from sbrk. */
  lemma InsertSound(base: int, brk: int, fl: seq<Blk>, live: map<int, int>, size: map<int, int>, got: set<int>, k: int,
                    b: Blk, size': map<int, int>, live': map<int, int>, got': set<int>, brk': int)
    requires Sound(base, brk, fl, live, size, got) && IsPred(fl, b.a, k) && Apart(fl, b) && b.n >= 1 && base < b.a
    requires brk <= brk' && b.a + b.n <= brk' && LiveApart(live')
    requires forall a | a in live' ::
      a in live && live'[a] == live[a] && Apart([b], Blk(a, live[a])) && a in size' && size'[a] == live[a]
    requires forall x :: x in got' <==> Covered(fl, x) || In(b, x) || LiveCovers(live', x)
    ensures Sound(base, brk', Insert(fl, k, b), live', size', got')
  {
    hide Insert, Covered, Apart, LiveCovers;
    InsertGood(fl, base, k, b);
    InsertBounds(fl, base, k, b, brk');
    forall a | a in live'
      ensures Apart(Insert(fl, k, b), Blk(a, live'[a]))
    {
      assert Apart(fl, Blk(a, live[a]));
      StillApart(fl, base, k, b, Blk(a, live[a]));
    }
    forall x
      ensures x in got' <==> Covered(Insert(fl, k, b), x) || LiveCovers(live', x)
    {
      InsertCovers(fl, base, k, b, x);
    }
  }

  lemma InsertBounds(fl: seq<Blk>, base: int, k: int, b: Blk, brk: int)
    requires Good(fl, base) && 0 <= k < |fl| && b.a + b.n <= brk && forall i | 0 <= i < |fl| :: fl[i].a + fl[i].n <= brk
    ensures forall i | 0 <= i < |Insert(fl, k, b)| :: Insert(fl, k, b)[i].a + Insert(fl, k, b)[i].n <= brk
  {
  }

  /** Every address above base has a place in the list. */
  lemma PredExists(fl: seq<Blk>, base: int, a: int) returns (k: int)
    requires Ordered(fl, base) && base < a && forall i | 0 <= i < |fl| :: fl[i].a != a
    ensures IsPred(fl, a, k)
  {
    k := 0;
    while k + 1 < |fl| && fl[k + 1].a < a
      invariant 0 <= k < |fl| && fl[k].a < a
    {
      k := k + 1;
    }
  }

  /** How far ahead k is of j, going round. */
  function Dist(n: int, j: int, k: int): int { if j <= k then k - j else n - j + k }

  /** free's two exit tests succeed at the predecessor and nowhere else on the ring. */
  lemma ExitsAtPred(fl: seq<Blk>, base: int, a: int, k: int, j: int)
    requires Ordered(fl, base) && base < a && IsPred(fl, a, k) && 0 <= j < |fl|
    requires forall i | 0 <= i < |fl| :: fl[i].a != a
    ensures var p, q := fl[j].a, fl[Next(fl, j)].a;
      ((a > p && a < q) || (p >= q && (a > p || a < q))) <==> j == k
  {
    if j + 1 < |fl| { Below(fl, base, j, j + 1); }
    if 0 < j { Below(fl, base, 0, j); }
    if j < k {
      Below(fl, base, j, k);
      if j + 1 < k { Below(fl, base, j + 1, k); }
    }
    if k < j {
      Below(fl, base, k, j);
      if k + 1 < j { Below(fl, base, k + 1, j); }
    }
  }

  /** A call of sbrk: the bytes asked for and the old break it returned, 0 for a failure. */
  datatype Request = Request(n: int, p: int)

  /** Between the two histories sbrk was called once, for the bytes of nu units or 4096 if that is more,
      and gave memory or not. */
  ghost predicate AskedOnce(before: seq<Request>, after: seq<Request>, nu: int, given: bool) {
    exists r :: after == before + [r] && r.n == SbrkBytes(if nu < 4096 then 4096 else nu) && (given <==> r.p != 0)
  }

  class Heap {
    const base: int
    var ptr: map<int, int>
    var size: map<int, int>
    /** 0 is the null pointer. */
    var freep: int
    /** The end of the data segment; sbrk never hands out anything below it. */
    var brk: int
    /** The end of the memory that the allocator takes for its own. */
    ghost var lim: int
    ghost var fl: seq<Blk>
    ghost var at: int
    ghost var live: map<int, int>
    ghost var got: set<int>
    /** Calls of morecore, and of sbrk in it. */
    ghost var grows: int
    ghost var asked: seq<Request>

    ghost predicate Valid() reads this {
      && 0 < base < brk
      && (freep == 0 ==> live == map[] && got == {} && fl == [])
      && (freep != 0 ==> Ready() && lim <= brk)
    }

    ghost predicate Ready() reads this {
      && freep != 0 && base < lim && Sound(base, lim, fl, live, size, got) && Linked(fl, ptr, size)
      && 0 <= at < |fl| && fl[at].a == freep
    }

    constructor (base: int, brk: int)
      requires 0 < base < brk
      ensures Valid() && freep == 0 && this.base == base
    {
      this.base, this.brk := base, brk;
      ptr, size, freep := map[], map[], 0;
      lim, fl, at, live, got, grows, asked := brk, [], 0, map[], {}, 0, [];
    }

    /** free's body, for a block that is not in the list: bp is its header. */
    method Release(bp: int) returns (ghost k: int)
      requires Ready() && bp in size && size[bp] >= 1 && base < bp && Apart(fl, Blk(bp, size[bp]))
      modifies this`ptr, this`size, this`freep, this`fl, this`at
      ensures IsPred(old(fl), bp, k) && fl == Insert(old(fl), k, Blk(bp, old(size)[bp])) && Linked(fl, ptr, size)
      ensures freep == old(fl)[k].a && freep != 0 && 0 <= at < |fl| && fl[at].a == freep
      ensures size.Keys == old(size).Keys
      ensures forall a | a in old(size) && a != bp && a != old(fl)[k].a :: size[a] == old(size)[a]
    {
      hide Sound, Good, Apart, Insert, Linked, Join, After;
      NewHeader(bp);
      k := PredExists(fl, base, bp);
      var p := freep;
      ghost var j := at;
      LinkFacts(fl, ptr, size, j);
      while !(bp > p && bp < ptr[p])
        invariant 0 <= j < |fl| && fl[j].a == p && LinkAt(fl, ptr, size, j)
        invariant fl == old(fl) && ptr == old(ptr) && size == old(size)
        decreases Dist(|fl|, j, k)
      {
        ExitsAtPred(fl, base, bp, k, j);
        if p >= ptr[p] && (bp > p || bp < ptr[p]) { break; }
        p := ptr[p];
        j := Next(fl, j);
        LinkFacts(fl, ptr, size, j);
      }
      ExitsAtPred(fl, base, bp, k, j);
      ghost var b := Blk(bp, size[bp]);
      RelinkedIsInsert(fl, base, k, b, ptr, size);
      if bp + size[bp] == ptr[p] {
        var q := ptr[p];
        size := size[bp := size[bp] + size[q]];
        ptr := ptr[bp := ptr[q]];
      } else {
        ptr := ptr[bp := ptr[p]];
      }
      if p + size[p] == bp {
        size := size[p := size[p] + size[bp]];
        ptr := ptr[p := ptr[bp]];
      } else {
        ptr := ptr[p := bp];
      }
      assert (ptr, size) == Relinked(old(ptr), old(size), p, bp);
      freep := p;
      PredStays(fl, k, b);
      fl := Insert(fl, k, b);
      at := k;
    }

    lemma PredStays(fl: seq<Blk>, k: int, b: Blk)
      requires 0 <= k < |fl|
      ensures k < |Insert(fl, k, b)| && Insert(fl, k, b)[k].a == fl[k].a
    {
    }

    lemma NewHeader(bp: int)
      requires Ready() && bp in size && size[bp] >= 1 && base < bp && Apart(fl, Blk(bp, size[bp]))
      ensures Good(fl, base) && Ordered(fl, base) && (forall i | 0 <= i < |fl| :: fl[i].a != bp) && base > 0
      ensures forall i | 0 <= i < |fl| :: fl[i].a >= base
    {
      forall i | 0 <= i < |fl|
        ensures fl[i].a != bp && fl[i].a >= base
      {
        assert Step(fl, i);
        if i > 0 { Below(fl, base, 0, i); }
      }
    }

    /** free(ap) of a live block. */
    method Free(ap: int) returns (ghost k: int)
      requires Valid() && ap - 1 in live
      modifies this`ptr, this`size, this`freep, this`fl, this`at, this`live
      ensures Valid() && live == old(live) - {ap - 1} && freep != 0
      ensures IsPred(old(fl), ap - 1, k) && fl == Insert(old(fl), k, Blk(ap - 1, old(live)[ap - 1]))
    {
      hide Sound, Good, Insert, Linked, Covered, Apart;
      var bp := ap - 1;
      ghost var fl0, size0, b := fl, size, Blk(bp, live[bp]);
      LiveBlock(bp);
      k := Release(bp);
      ghost var live' := live - {bp};
      FreedSound(fl0, size0, bp, k, live');
      live := live';
    }

    lemma LiveBlock(bp: int)
      requires Valid() && bp in live
      ensures Ready() && bp in size && size[bp] == live[bp] >= 1 && base < bp && Apart(fl, Blk(bp, size[bp]))
    {
    }

    lemma FreedSound(fl0: seq<Blk>, size0: map<int, int>, bp: int, k: int, live': map<int, int>)
      requires Sound(base, lim, fl0, live, size0, got) && bp in live && live' == live - {bp}
      requires IsPred(fl0, bp, k) && size.Keys == size0.Keys
      requires forall a | a in size0 && a != bp && a != fl0[k].a :: size[a] == size0[a]
      ensures Sound(base, lim, Insert(fl0, k, Blk(bp, live[bp])), live', size, got)
    {
      var b := Blk(bp, live[bp]);
      assert Apart(fl0, b);
      forall a | a in live'
        ensures a in live && live'[a] == live[a] && Apart([b], Blk(a, live[a])) && a in size && size[a] == live[a]
      {
        LiveIsNotHeader(base, lim, fl0, live, size0, got, a, k);
      }
      forall x
        ensures x in got <==> Covered(fl0, x) || In(b, x) || LiveCovers(live', x)
      {
        hide Covered;
        LiveAdd(live', b, x);
        assert live == live'[bp := b.n];
      }
      InsertSound(base, lim, fl0, live, size0, got, k, b, size, live', got, lim);
    }

    /** sbrk of n bytes, in whole units: fresh memory at or above the end of the data segment, or 0
        when there is none.  A negative n takes memory off the end, if there is that much. */
    method Sbrk(n: int) returns (p: int)
      requires n % 8 == 0
      modifies this`brk, this`asked
      ensures asked == old(asked) + [Request(n, p)]
      ensures p == 0 ==> brk == old(brk)
      ensures p != 0 ==> p >= old(brk) && (brk == p + n / 8 || (n < 0 && brk == p))
    {
      p := *;
      if p < brk { p := 0; }
      asked := asked + [Request(n, p)];
      if p == 0 { return; }
      brk := p;
      if n >= 0 || p + n / 8 > 0 { brk := p + n / 8; }
    }

    /** morecore: 0 when sbrk fails; otherwise at least nu free units more, merged in.  From 2^31 bytes
        on, sbrk gives no memory, yet its old break is taken for a block.  Storing that block's header
        traps above the last mapped page (`fault`); inside it, the block is merged in (`wild`). */
    method Morecore(nu: int) returns (p: int, fault: bool, ghost wild: bool, ghost region: Blk)
      requires Ready() && lim <= brk && 0 < nu <= UINT / 8
      modifies this`ptr, this`size, this`freep, this`fl, this`at, this`got, this`brk, this`lim, this`grows,
               this`asked
      ensures grows == old(grows) + 1 && (!fault ==> Ready() && (wild || lim <= brk))
      ensures asked == old(asked) + [Request(SbrkBytes(region.n), region.a)] && (p == 0 <==> region.a == 0)
      ensures region.n == if nu < 4096 then 4096 else nu
      ensures AskedOnce(old(asked), asked, nu, p != 0) && (!fault && p != 0 ==> Obtained(old(got), got, region.n))
      ensures fault ==> nu * 8 >= UINT / 2 && p != 0 && p >= Mapped(brk)
      ensures wild ==> nu * 8 >= UINT / 2 && !fault && p != 0 && lim == region.a + region.n && region.n == nu
      ensures wild ==> brk <= region.a < Mapped(brk) && region.a in got && !Sound(base, brk, fl, live, size, got)
      ensures nu * 8 >= UINT / 2 ==> fault || wild || p == 0
      ensures !fault && p == 0 ==>
        fl == old(fl) && got == old(got) && freep == old(freep) && at == old(at) && ptr == old(ptr) && size == old(size)
      ensures !fault && p != 0 ==> p == freep && (exists i :: 0 < i < |fl| && fl[i].n >= nu)
      ensures !fault && p != 0 ==> region.a >= old(brk) && got == old(got) + Units(region)
      ensures !fault && p != 0 && (forall i | 0 <= i < |old(fl)| :: old(fl)[i].n < nu) ==>
        forall i | 0 <= i < |fl| && fl[i].n >= region.n :: fl[i].a + fl[i].n == lim
    {
      hide Sound, Good, Insert, Linked, Covered, Apart, SbrkBytes;
      grows := grows + 1;
      ghost var fl0, size0, got0, lim0 := fl, size, got, lim;
      var units := if nu < 4096 then 4096 else nu;
      SbrkGrowsIff(units);
      var hp := Sbrk(SbrkBytes(units));
      region, wild := Blk(hp, units), false;
      if hp == 0 { return 0, false, false, region; }
      if hp >= Mapped(brk) { return hp, true, false, region; }
      wild := hp >= brk;
      size := size[hp := units];
      lim := hp + units;
      FreshReady(size0, lim0, hp, units);
      ghost var size1 := size;
      ghost var k := Release(hp);
      got := got0 + Units(region);
      GrownSound(fl0, size1, got0, hp, units, k);
      GoodBefore(fl0, size1, got0);
      InsertHolds(fl0, base, k, Blk(hp, units));
      LastBlock(fl0, lim0, size0, got0, k, Blk(hp, units));
      if wild { Unsound(hp); }
      return freep, false, wild, region;
    }

    /** A unit at or above the break that counts as obtained. */
    lemma Unsound(x: int)
      requires x in got && brk <= x
      ensures !Sound(base, brk, fl, live, size, got)
    {
      hide Good, Apart;
    }

    lemma LastBlock(fl0: seq<Blk>, lim0: int, size0: map<int, int>, got0: set<int>, k: int, b: Blk)
      requires Sound(base, lim0, fl0, live, size0, got0) && IsPred(fl0, b.a, k) && lim0 <= b.a
      ensures (forall i | 0 <= i < |fl0| :: fl0[i].n < b.n) ==>
        forall i | 0 <= i < |Insert(fl0, k, b)| && Insert(fl0, k, b)[i].n >= b.n ::
          Insert(fl0, k, b)[i].a + Insert(fl0, k, b)[i].n == b.a + b.n
    {
      hide Insert, Covered, Apart;
      LastIsPred(fl0, base, b.a, k);
      if forall i | 0 <= i < |fl0| :: fl0[i].n < b.n { InsertLast(fl0, base, k, b, b.n); }
    }

    lemma GoodBefore(fl0: seq<Blk>, size1: map<int, int>, got0: set<int>)
      requires Sound(base, lim, fl0, live, size1, got0)
      ensures Good(fl0, base) && forall x | x in got0 :: x < lim
    {
    }

    lemma FreshReady(size0: map<int, int>, lim0: int, hp: int, units: int)
      requires Sound(base, lim0, fl, live, size0, got) && Linked(fl, ptr, size0) && 0 < units
      requires hp >= lim0 && lim == hp + units && size == size0[hp := units]
      ensures Sound(base, lim, fl, live, size, got) && Linked(fl, ptr, size) && base < hp
      ensures Apart(fl, Blk(hp, units)) && forall a | a in live :: a + live[a] <= hp
    {
      hide Covered, Touch;
      forall i | 0 <= i < |fl|
        ensures LinkAt(fl, ptr, size, i)
      {
        assert Step(fl, i) && LinkAt(fl, ptr, size0, i);
      }
    }

    lemma GrownSound(fl0: seq<Blk>, size1: map<int, int>, got0: set<int>, hp: int, units: int, k: int)
      requires Sound(base, lim, fl0, live, size1, got0) && 0 < units && lim == hp + units && base < hp
      requires Apart(fl0, Blk(hp, units)) && (forall a | a in live :: a + live[a] <= hp)
      requires IsPred(fl0, hp, k) && size.Keys == size1.Keys
      requires forall a | a in size1 && a != hp && a != fl0[k].a :: size[a] == size1[a]
      requires got == got0 + Units(Blk(hp, units))
      ensures Sound(base, lim, Insert(fl0, k, Blk(hp, units)), live, size, got)
    {
      var b := Blk(hp, units);
      forall a | a in live
        ensures Apart([b], Blk(a, live[a])) && a in size && size[a] == live[a]
      {
        LiveIsNotHeader(base, lim, fl0, live, size1, got0, a, k);
      }
      hide Covered, Touch, Apart;
      InsertSound(base, lim, fl0, live, size1, got0, k, b, size, live, got, lim);
    }

    lemma InsertHolds(fl0: seq<Blk>, base: int, k: int, b: Blk)
      requires Good(fl0, base) && IsPred(fl0, b.a, k) && b.n >= 1 && base < b.a
      ensures exists i :: 0 < i < |Insert(fl0, k, b)| && Insert(fl0, k, b)[i].n >= b.n
    {
      var f1 := After(fl0, k, b);
      var f2 := JoinIfTouching(f1, k + 1);
      assert Step(fl0, k);
      if k + 1 < |fl0| { assert Step(fl0, k + 1); }
      assert f2[k + 1].n >= b.n && f2[k] == fl0[k];
      var r := Insert(fl0, k, b);
      if Touch(f2, k) {
        assert k > 0 && r[k].n >= b.n;
      } else {
        assert r[k + 1].n >= b.n;
      }
    }

    /** malloc's success branch: take n units from the end of block j, or unlink it. */
    method Cut(ghost j: int, prevp: int, p: int, n: int) returns (hp: int)
      requires Ready() && 0 < j < |fl| && fl[j].a == p && fl[j - 1].a == prevp && 1 <= n <= fl[j].n
      modifies this`ptr, this`size, this`freep, this`fl, this`at, this`live
      ensures Ready() && CutFrom(old(fl), fl, n, hp) && hp + n == old(fl)[j].a + old(fl)[j].n
      ensures hp !in old(live) && live == old(live)[hp := n] && hp > 0 && freep == prevp
    {
      hide Sound, Good, Linked, Covered, Apart;
      CutFacts(j, n);
      ghost var fl0, size0 := fl, size;
      if size[p] == n {
        ptr := ptr[prevp := ptr[p]];
        hp := p;
      } else {
        size := size[p := size[p] - n];
        hp := p + size[p];
        size := size[hp := n];
      }
      freep := prevp;
      TakeSound(base, lim, fl0, live, size0, got, j, n, size);
      live := live[hp := n];
      fl := Take(fl0, j, n);
      at := j - 1;
    }

    lemma ReadyIsValid()
      requires Ready() && lim <= brk
      ensures Valid()
    {
    }

    lemma CutFacts(j: int, n: int)
      requires Ready() && 0 < j < |fl| && 1 <= n <= fl[j].n
      ensures LinkAt(fl, ptr, size, j) && LinkAt(fl, ptr, size, j - 1) && base > 0 && fl[j - 1].a > 0 && fl[j].a > 0
      ensures fl[j].n == n ==> Linked(Take(fl, j, n), ptr[fl[j - 1].a := ptr[fl[j].a]], size)
      ensures fl[j].n > n ==> Linked(Take(fl, j, n), ptr, size[fl[j].a := fl[j].n - n][Taken(fl, j, n).a := n])
    {
      TakeLinked(fl, base, j, n, ptr, size);
      Below(fl, base, 0, j);
      if j > 1 { Below(fl, base, 0, j - 1); }
    }

    ghost predicate Fits(f: seq<Blk>, n: int) { exists i :: 0 <= i < |f| && f[i].n >= n }

    ghost predicate CutFrom(f: seq<Blk>, f': seq<Blk>, n: int, a: int) {
      exists i :: 0 <= i < |f| && 1 <= n <= f[i].n && f' == Take(f, i, n) && a == Taken(f, i, n).a
    }

    /** Block i is the first with n units after block `at`, going round. */
    ghost predicate FirstFit(f: seq<Blk>, at: int, i: int, n: int) {
      && 0 < i < |f| && f[i].n >= n
      && forall x | 0 <= x < |f| && (if i > at then at < x < i else x > at || x < i) :: f[x].n < n
    }

    /** The first block that fits gave its last n units; the search goes on from the block before it. */
    ghost predicate CutFirst(f: seq<Blk>, at: int, n: int, a: int, freep: int) {
      exists i :: FirstFit(f, at, i, n) && a + n == f[i].a + f[i].n && freep == f[i - 1].a
    }

    ghost predicate Obtained(before: set<int>, after: set<int>, n: int) {
      exists a :: after == before + Units(Blk(a, n))
    }

    /** Index x lies between the start of the search and j, going round. */
    ghost predicate Visited(j: int, x: int) reads this { if j > at then at < x < j else x > at || x < j }

    lemma FoundFirst(jp: int, j: int, n: int)
      requires 0 <= jp < |fl| && j == Next(fl, jp) && 0 < j && fl[j].n >= n
      requires forall x | 0 <= x < |fl| && Visited(j, x) :: fl[x].n < n
      ensures forall a | a + n == fl[j].a + fl[j].n :: CutFirst(fl, at, n, a, fl[jp].a)
    {
      assert jp == j - 1;
      assert FirstFit(fl, at, j, n);
    }

    lemma NotBase(j: int, n: int)
      requires Ready() && 0 <= j < |fl| && fl[j].n >= n >= 1
      ensures j > 0
    {
    }

    /** The search loop of malloc.  It ends because the ring is walked at most twice: once before
        and once after the only call of morecore. */
    method Search(nunits: int) returns (r: int, fault: bool, ghost wild: bool)
      requires Ready() && lim <= brk && 1 <= nunits <= UINT / 8
      modifies this`ptr, this`size, this`freep, this`fl, this`at, this`live, this`got, this`brk, this`lim, this`grows,
               this`asked
      ensures old(grows) <= grows <= old(grows) + 1 && (!fault && !wild ==> Valid() && freep != 0)
      ensures fault || wild ==> nunits * 8 >= UINT / 2
      ensures wild ==> !fault && r != 0 && brk <= r - 1 < Mapped(brk) && !Sound(base, brk, fl, live, size, got)
      ensures nunits * 8 >= UINT / 2 && !Fits(old(fl), nunits) ==> fault || wild || r == 0
      ensures !fault && r == 0 ==> live == old(live) && got == old(got) && grows == old(grows) + 1
      ensures Fits(old(fl), nunits) ==> asked == old(asked)
      ensures !Fits(old(fl), nunits) ==> AskedOnce(old(asked), asked, nunits, fault || r != 0)
      ensures !fault && r != 0 ==> r - 1 !in old(live) && live == old(live)[r - 1 := nunits]
      ensures Fits(old(fl), nunits) ==>
        !fault && !wild && r != 0 && grows == old(grows) && got == old(got) && CutFrom(old(fl), fl, nunits, r - 1)
      ensures Fits(old(fl), nunits) ==> CutFirst(old(fl), old(at), nunits, r - 1, freep)
      ensures !Fits(old(fl), nunits) && !fault && r != 0 ==>
        Obtained(old(got), got, if nunits < 4096 then 4096 else nunits)
    {
      hide Sound, Good, Linked, Covered, Apart, CutFrom, CutFirst, Mapped, AskedOnce, Obtained, Units;
      wild := false;
      var prevp := freep;
      LinkFacts(fl, ptr, size, at);
      var p := ptr[prevp];
      ghost var jp, j, low := at, Next(fl, at), 0;
      while true
        invariant Ready() && 0 <= jp < |fl| && fl[jp].a == prevp && j == Next(fl, jp) && fl[j].a == p
        invariant forall x | 0 <= x < |fl| && Visited(j, x) :: fl[x].n < nunits
        invariant live == old(live) && old(grows) <= grows <= old(grows) + 1
        invariant grows == old(grows) ==> fl == old(fl) && got == old(got) && !wild
        invariant grows > old(grows) ==> Fits(fl, nunits) && !Fits(old(fl), nunits)
        invariant grows > old(grows) && !wild ==> nunits * 8 < UINT / 2
        invariant !wild ==> lim <= brk
        invariant grows == old(grows) ==> at == old(at) && asked == old(asked)
        invariant grows > old(grows) ==> AskedOnce(old(asked), asked, nunits, true)
        invariant grows > old(grows) ==> Obtained(old(got), got, if nunits < 4096 then 4096 else nunits)
        invariant wild ==> nunits * 8 >= UINT / 2 && low in got && brk <= low == lim - nunits < Mapped(brk)
        invariant wild ==> forall x | 0 <= x < |fl| && fl[x].n >= nunits :: fl[x].a + fl[x].n == lim
        decreases if grows == old(grows) then 1 else 0, Dist(|fl|, j, at)
      {
        LinkFacts(fl, ptr, size, j);
        if size[p] >= nunits {
          NotBase(j, nunits);
          FoundFirst(jp, j, nunits);
          var hp := Cut(j, prevp, p, nunits);
          if wild { Unsound(low); } else { ReadyIsValid(); }
          return hp + 1, false, wild;
        }
        if p == freep {
          SameIndex(j, at);
          ghost var region;
          p, fault, wild, region := Morecore(nunits);
          if fault { return 0, true, false; }
          if p == 0 {
            ReadyIsValid();
            return 0, false, false;
          }
          low := region.a;
          j := at;
        }
        LinkFacts(fl, ptr, size, j);
        prevp := p;
        p := ptr[p];
        jp, j := j, Next(fl, j);
      }
    }

    /** malloc: asks for more memory at most once, and only when no free block is big enough.  For a
        request that sbrk's int argument cannot express, `fault` is the trap in morecore, and `wild`
        the return of a block that starts at or above the break: the heap is no longer sound. */
    method Malloc(nbytes: int) returns (r: int, fault: bool, ghost wild: bool)
      requires Valid() && 0 <= nbytes
      modifies this`ptr, this`size, this`freep, this`fl, this`at, this`live, this`got, this`brk, this`lim, this`grows,
               this`asked
      ensures old(grows) <= grows <= old(grows) + 1 && (!fault && !wild ==> Valid() && freep != 0)
      ensures fault || wild ==> Nunits(nbytes) * 8 >= UINT / 2
      ensures wild ==> !fault && r != 0 && brk <= r - 1 < Mapped(brk) && !Sound(base, brk, fl, live, size, got)
      ensures Nunits(nbytes) * 8 >= UINT / 2 && !Fits(old(fl), Nunits(nbytes)) ==> fault || wild || r == 0
      ensures !fault && r == 0 ==> live == old(live) && got == old(got) && grows == old(grows) + 1
      ensures Fits(old(fl), Nunits(nbytes)) ==> asked == old(asked)
      ensures !Fits(old(fl), Nunits(nbytes)) ==> AskedOnce(old(asked), asked, Nunits(nbytes), fault || r != 0)
      ensures !fault && r != 0 ==> r - 1 !in old(live) && live == old(live)[r - 1 := Nunits(nbytes)]
      ensures Fits(old(fl), Nunits(nbytes)) ==> !fault && !wild && r != 0 && grows == old(grows) && got == old(got)
      ensures Fits(old(fl), Nunits(nbytes)) ==> CutFrom(old(fl), fl, Nunits(nbytes), r - 1)
      ensures Fits(old(fl), Nunits(nbytes)) ==> CutFirst(old(fl), old(at), Nunits(nbytes), r - 1, freep)
      ensures !Fits(old(fl), Nunits(nbytes)) && !fault && r != 0 ==>
        Obtained(old(got), got, if Nunits(nbytes) < 4096 then 4096 else Nunits(nbytes))
    {
      hide Sound, Good, Linked, Covered, Apart, CutFrom, CutFirst, Mapped, AskedOnce, Obtained, Units;
      var nunits := (nbytes + 8 - 1) % UINT / 8 + 1;
      if freep == 0 {
        freep := base;
        ptr := ptr[base := base];
        size := size[base := 0];
        fl := [Blk(base, 0)];
        at := 0;
        lim := brk;
        FirstReady();
        assert !Fits(fl, nunits);
      }
      r, fault, wild := Search(nunits);
    }

    lemma SameIndex(i: int, j: int)
      requires Ready() && 0 <= i < |fl| && 0 <= j < |fl| && fl[i].a == fl[j].a
      ensures i == j
    {
      if i < j { Below(fl, base, i, j); }
      if j < i { Below(fl, base, j, i); }
    }

    lemma FirstReady()
      requires 0 < base < lim && live == map[] && got == {} && freep == base && at == 0
      requires fl == [Blk(base, 0)] && base in ptr && ptr[base] == base && base in size && size[base] == 0
      ensures Ready()
    {
    }
  }
}
