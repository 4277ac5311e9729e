/** A process as setupkvm leaves it and two free frames: growing it by two pages fails, and one of the
    frames does not come back. */
module ScarceMemory {
  import opened PageTables
  import opened AddressSpaces

  /** The directory's frame. */
  const DIR: int := 3000

  /** The directory entries that kmap fills: memory at KERNBASE, and the devices. */
  predicate InKernel(x: int) { 512 <= x < 568 || 1016 <= x < 1024 }

  /** The page table of entry x is in frame 1000 + x. */
  function KernelTable(data: int, x: int): seq<Pte> { seq(1024, y => KernelPte(data, x * 1024 + y)) }

  function Entries(): seq<Pte> { seq(1024, x => if InKernel(x) then Pte(true, WU, 1000 + x) else NIL) }

  predicate InUse(f: int) { f == DIR || f == 4000 || f == 4001 || InKernel(f - 1000) }

  function RoleOf(f: int): Role {
    if f == DIR then Dir else if f == 4000 || f == 4001 then Free else Table(DIR, f - 1000)
  }

  /** Frames 4000 and 4001 are free. */
  function Scarce(data: int): Mem {
    Mem([4000, 4001],
        map f | 1000 <= f < 4000 && InUse(f) :: if f == DIR then Entries() else KernelTable(data, f - 1000),
        map f | 1000 <= f <= 4001 && InUse(f) :: Filled(1),
        map f | 1000 <= f <= 4001 && InUse(f) :: RoleOf(f), 1000)
  }

  lemma ScarceFrames(data: int)
    ensures var m := Scarce(data);
      && m.free == [4000, 4001] && m.data.Keys == m.owner.Keys && m.first == 1000
      && (forall f :: f in m.owner <==> 1000 <= f <= 4001 && InUse(f))
      && (forall f | f in m.owner :: m.owner[f] == RoleOf(f))
      && IsTab(m, DIR) && m.tabs[DIR] == Entries()
      && forall x | InKernel(x) :: IsTab(m, 1000 + x) && m.tabs[1000 + x] == KernelTable(data, x)
  {
    var m := Scarce(data);
    forall x | InKernel(x)
      ensures IsTab(m, 1000 + x) && m.tabs[1000 + x] == KernelTable(data, x)
    {
      assert InUse(1000 + x);
    }
  }

  /** Its invariant holds, and it maps what setupkvm maps and nothing else. */
  lemma ScarceIsReady(data: int)
    ensures Inv(Scarce(data)) && Is(Scarce(data), DIR, Dir)
    ensures forall v | 0 <= v < NPAGES :: Lookup(Scarce(data), DIR, v) == KernelPte(data, v)
  {
    hide Scarce, KernelPte;
    ScarceFrames(data);
    var m := Scarce(data);
    forall f | f in m.owner
      ensures InPool(m, f) && RoleOk(m, f)
    {
      if f == 4000 { assert m.free[0] == f; }
      if f == 4001 { assert m.free[1] == f; }
    }
    forall v | 0 <= v < NPAGES
      ensures Lookup(m, DIR, v) == KernelPte(data, v)
    {
      LookupIs(data, v);
    }
  }

  lemma LookupIs(data: int, v: int)
    requires 0 <= v < NPAGES
    ensures Lookup(Scarce(data), DIR, v) == KernelPte(data, v)
  {
    hide Scarce;
    ScarceFrames(data);
    if InKernel(v / 1024) { assert v / 1024 * 1024 + v % 1024 == v; }
  }

  /** Growing it from 0 to two pages fails at the second page, and however it is done one frame is
      lost to the page table of entry 0. */
  lemma ScarceGrowthLeaksTable(data: int, n: Mem, at: int)
    requires Inv(n) && FailedGrowth(Scarce(data), n, DIR, 0, 2, at)
    ensures Need(Scarce(data), DIR, 0, 2) > |Scarce(data).free|
    ensures at == 1 && |n.free| == 1 && HasTab(n, DIR, 0) && n.owner != Scarce(data).owner
  {
    hide Scarce, Inv, Lookup, Grown;
    ScarceFrames(data);
    ScarceIsReady(data);
    var m := Scarce(data);
    assert Need(m, DIR, 0, 0) == 0 && Need(m, DIR, 0, 1) == 2 && Need(m, DIR, 0, 2) == 3;
    TableMade(m, n, DIR, 0, 1, 0);
    DirKept(m, n, DIR, 0);
    NewTableOwner(m, n, DIR, 0);
  }

  lemma DirKept(m: Mem, n: Mem, d: int, lo: int)
    requires Grown(m, n, d, lo, lo) && Is(m, d, Dir)
    ensures Is(n, d, Dir)
  {
    GrownDir(m, n, d, lo, lo);
  }
}
