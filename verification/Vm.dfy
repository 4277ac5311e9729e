/** vm.c and kalloc.c: the free list is pushed and popped in place, directory and table entries are
    written one by one.  Frames and virtual pages are numbers; sizes are in bytes. */
module Vm {
  import opened PageTables
  import opened AddressSpaces
  import opened FrameCounts

  class Memory {
    var free: seq<int>
    var tabs: map<int, seq<Pte>>
    var data: map<int, Page>
    /** The page of the kernel's data segment, and the first byte after the kernel. */
    const kdata: int
    const end: int
    ghost var owner: map<int, Role>

    ghost function Abs(): Mem reads this { Mem(free, tabs, data, owner, PgUp(end)) }

    ghost predicate Valid() reads this { Inv(Abs()) && 0 < end && EXTMEM < kdata < PHYSTOP }

    constructor (kdata: int, end: int)
      requires EXTMEM < kdata < PHYSTOP && 0 < end
      ensures Valid() && free == [] && owner == map[] && this.kdata == kdata && this.end == end
    {
      free, tabs, data, owner := [], map[], map[], map[];
      this.kdata, this.end := kdata, end;
    }

    // ----- kalloc.c -----

    /** kfree of a physical address in bytes; false is its panic, for an address that is no whole
        frame between the end of the kernel and the top of memory. */
    method Kfree(pa: int) returns (ok: bool)
      requires pa / PGSIZE !in owner || owner[pa / PGSIZE] == Held
      modifies this
      ensures ok <==> pa % PGSIZE == 0 && end <= pa < PHYSTOP * PGSIZE
      ensures ok ==> Abs() == Put(old(Abs()), pa / PGSIZE)
      ensures ok ==> free == [pa / PGSIZE] + old(free) && pa / PGSIZE in data && |data[pa / PGSIZE]| == PGSIZE
      ensures ok ==> forall j | 0 <= j < PGSIZE :: data[pa / PGSIZE][j] == 1
      ensures !ok ==> Abs() == old(Abs())
      ensures old(Valid()) ==> Valid()
    {
      ghost var m := Abs();
      if pa % PGSIZE != 0 || pa < end || pa >= PHYSTOP * PGSIZE { return false; }
      var f := pa / PGSIZE;
      data := data[f := Filled(1)];
      tabs := tabs - {f};
      free := [f] + free;
      owner := owner[f := Free];
      if Inv(m) && 0 < end { PutKeeps(m, Abs(), f); }
      return true;
    }

    method Kalloc() returns (f: int)
      requires Valid()
      modifies this
      ensures Valid()
      ensures old(free) == [] ==> f == 0 && Abs() == old(Abs())
      ensures old(free) != [] ==> f == old(free)[0] && Abs() == Taken(old(Abs()))
      ensures f != 0 ==> Is(Abs(), f, Held) && Is(old(Abs()), f, Free)
      ensures f == 0 <==> old(free) == []
    {
      f := 0;
      if free != [] {
        TakenKeeps(Abs(), Taken(Abs()));
        f := free[0];
        free := free[1..];
        owner := owner[f := Held];
      }
    }

    /** Every whole page between two physical addresses becomes a free frame; false is kfree's
        panic, exactly when such a page is not in the pool. */
    method Freerange(vstart: int, vend: int) returns (ok: bool)
      requires Valid() && 0 < vstart
      requires forall f | PgUp(vstart) <= f < vend / PGSIZE :: f !in owner
      modifies this
      ensures Valid() && SameMap(old(Abs()), Abs())
      ensures ok <==> forall f | PgUp(vstart) <= f < vend / PGSIZE :: InPool(Abs(), f)
      ensures ok ==> forall f :: f in owner <==> f in old(owner) || PgUp(vstart) <= f < vend / PGSIZE
      ensures forall f | f in owner :: owner[f] == if f in old(owner) then old(owner)[f] else Free
    {
      hide Inv, Lookup, Filled;
      var p := PgUp(vstart);
      while (p + 1) * PGSIZE <= vend
        invariant Valid() && SameMap(old(Abs()), Abs())
        invariant PgUp(vstart) <= p && (p <= vend / PGSIZE || p == PgUp(vstart))
        invariant forall f | PgUp(vstart) <= f < p :: InPool(Abs(), f)
        invariant forall f :: f in owner <==> f in old(owner) || PgUp(vstart) <= f < p
        invariant forall f | f in owner :: owner[f] == if f in old(owner) then old(owner)[f] else Free
        decreases vend - p * PGSIZE
      {
        ghost var m := Abs();
        if InPool(m, p) { PutKeeps(m, Put(m, p), p); }
        ok := Kfree(p * PGSIZE);
        if !ok { return; }
        p := p + 1;
      }
      return true;
    }

    // ----- vm.c -----

    /** The frame of the page table for virtual page v, or 0. */
    method Walkpgdir(d: int, v: int, alloc: bool) returns (t: int)
      requires Valid() && Is(Abs(), d, Dir) && 0 <= v < NPAGES
      modifies this
      ensures Valid()
      ensures t == 0 ==> Abs() == old(Abs()) && !HasTab(Abs(), d, v / 1024) && (alloc ==> free == [])
      ensures t != 0 ==> Walked(old(Abs()), Abs(), d, v, t)
      ensures t != 0 && !old(HasTab(Abs(), d, v / 1024)) ==>
        IsTab(Abs(), d) && tabs[d][v / 1024] == Pte(true, Flags(true, true), t)
      ensures !alloc ==> Abs() == old(Abs())
    {
      ghost var m := Abs();
      assert RoleOk(m, d);
      if tabs[d][v / 1024].present {
        t := tabs[d][v / 1024].frame;
        assert Is(m, t, Table(d, v / 1024));
        return;
      }
      if !alloc { return 0; }
      t := Kalloc();
      if t == 0 { return; }
      tabs := tabs[t := ZeroTable()];
      tabs := tabs[d := tabs[d][v / 1024 := Pte(true, WU, t)]];
      owner := owner[t := Table(d, v / 1024)];
      assert LinkedTable(Taken(m), Abs(), d, v / 1024, t);
      WalkedKeeps(m, Abs(), d, v, t);
    }

    /** Maps pages v, v + 1, ... of d to frames pa, pa + 1, ...; -1 when no table can be had, -2
        for the panic when it comes to a page that is mapped already. */
    method Mappages(d: int, v: int, size: int, pa: int, flags: Flags) returns (r: int, ghost done: int)
      requires Valid() && Is(Abs(), d, Dir) && 0 <= v && 1 <= size && v + size <= NPAGES
      requires InHand(Abs(), v, size, pa)
      modifies this
      ensures Valid() && 0 <= done <= size && Mapped(old(Abs()), Abs(), d, v, done, pa, flags)
      ensures r == 0 || r == -1 || r == -2
      ensures r == 0 <==> done == size
      ensures r == -2 <==> done < size && Lookup(old(Abs()), d, v + done).present
      ensures forall w | v <= w < v + done :: !Lookup(old(Abs()), d, w).present
      ensures r == 0 ==>
        forall w | v <= w < v + size && w < NPAGES :: Lookup(Abs(), d, w) == Pte(true, flags, pa + w - v)
      ensures r == -1 ==> free == [] && !HasTab(Abs(), d, (v + done) / 1024)
      ensures r == -1 && done == 0 ==> Abs() == old(Abs())
      ensures r == 0 && size == 1 ==> |free| == |old(free)| - (if HasTab(old(Abs()), d, v / 1024) then 0 else 1)
      ensures r == 0 && size == 1 ==>
        forall x | 0 <= x < 1024 :: HasTab(Abs(), d, x) <==> HasTab(old(Abs()), d, x) || x == v / 1024
      ensures Counted(old(Abs()), Abs(), d, v, done)
    {
      hide Lookup, Inv, HasTab, Mapped, InHand, SetEntry, Counted;
      ghost var m0 := Abs();
      var a, p, last := v, pa, v + size - 1;
      done := 0;
      MapsNothing(m0, m0, d, v, pa, flags);
      CountedNone(m0, d, v);
      while true
        invariant v <= a <= last && p == pa + (a - v) && done == a - v
        invariant Valid() && Mapped(m0, Abs(), d, v, done, pa, flags) && (a == v ==> Abs() == m0)
        invariant forall w | v <= w < a :: !Lookup(m0, d, w).present
        invariant Counted(m0, Abs(), d, v, done)
        decreases last - a
      {
        ghost var m := Abs();
        MapsHere(m0, m, d, v, done, size, pa, flags);
        var t := Walkpgdir(d, a, true);
        if t == 0 {
          NoTable(m, d, a);
          return -1, done;
        }
        ghost var k := Abs();
        RemapTest(m, k, d, a, t);
        if tabs[t][a % 1024].present {
          RemapStops(m0, m, k, d, v, done, pa, flags, t);
          return -2, done;
        }
        tabs := tabs[t := tabs[t][a % 1024 := Pte(true, flags, p)]];
        if a < KPAGE { owner := owner[p := User(d, a)]; }
        EntrySet(k, Abs(), d, a, t, Pte(true, flags, p));
        MapsOne(m, k, Abs(), d, a, t, p, flags);
        MapsNext(m0, m, Abs(), d, v, done, size, pa, flags);
        CountedNext(m0, m, Abs(), d, v, done);
        done := done + 1;
        if a == last { break; }
        a := a + 1;
        p := p + 1;
      }
      MappedPages(m0, Abs(), d, v, size, pa, flags);
      if size == 1 { CountedOne(m0, Abs(), d, v); }
      return 0, done;
    }

    lemma MappedPages(m: Mem, n: Mem, d: int, v: int, size: int, pa: int, flags: Flags)
      requires 0 <= v && Is(m, d, Dir) && Mapped(m, n, d, v, size, pa, flags)
      ensures forall w | v <= w < v + size && w < NPAGES :: Lookup(n, d, w) == Pte(true, flags, pa + w - v)
    {
      hide Lookup;
    }

    /** The page that the loop of deallocuvm has found: freed, then its entry cleared.  kfree takes it. */
    method FreePage(d: int, a: int, t: int)
      requires Valid() && Is(Abs(), d, Dir) && 0 <= a < KPAGE && HasTab(Abs(), d, a / 1024)
      requires t == tabs[d][a / 1024].frame && IsTab(Abs(), t)
      requires tabs[t][a % 1024].present && Lookup(Abs(), d, a) == tabs[t][a % 1024]
      modifies this
      ensures Valid() && Is(Abs(), d, Dir) && Shrunk(old(Abs()), Abs(), d, a, a + 1) && |free| == |old(free)| + 1
    {
      hide Lookup, Inv, Shrunk, Freed;
      ghost var m := Abs();
      var pa := tabs[t][a % 1024].frame;
      FrameInUse(m, d, a, t, pa);
      assert pa != 0;
      PoolFrame(pa);
      owner := owner[pa := Held];
      var ok := Kfree(pa * PGSIZE);
      assert ok;
      tabs := tabs[t := tabs[t][a % 1024 := NIL]];
      ShrinksOne(m, Abs(), d, a, t, pa);
      ShrunkDir(m, Abs(), d, a, a + 1);
    }

    /** Unmaps and frees the user pages from newsz up to oldsz, a table at a time where one is missing. */
    method Deallocuvm(d: int, oldsz: int, newsz: int) returns (r: int)
      requires Valid() && Is(Abs(), d, Dir) && 0 <= newsz && 0 <= oldsz <= KERNBASE
      modifies this
      ensures Valid()
      ensures newsz >= oldsz ==> r == oldsz && Abs() == old(Abs())
      ensures newsz < oldsz ==> r == newsz && Shrunk(old(Abs()), Abs(), d, PgUp(newsz), PgUp(oldsz))
      ensures newsz < oldsz ==> |free| == |old(free)| + PresentIn(old(Abs()), d, PgUp(newsz), PgUp(oldsz))
    {
      hide Lookup, Inv, HasTab, Shrunk, Freed, PresentIn;
      if newsz >= oldsz { return oldsz; }
      ghost var m0 := Abs();
      ghost var lo, hi := PgUp(newsz), PgUp(oldsz);
      var a := PgUp(newsz);
      ShrinksNothing(m0, m0, d, lo);
      NonePresent(m0, d, lo);
      while a * PGSIZE < oldsz
        invariant lo <= a && Valid() && Is(Abs(), d, Dir)
        invariant Shrunk(m0, Abs(), d, lo, if a < hi then a else hi)
        invariant |free| == |m0.free| + PresentIn(m0, d, lo, if a < hi then a else hi)
        decreases hi - a
      {
        ghost var m := Abs();
        ShrunkHere(m0, m, d, lo, a);
        PresentStep(m0, d, lo, a);
        var t := Walkpgdir(d, a, false);
        if t == 0 {
          ghost var b := (a / 1024 + 1) * 1024;
          NoTableNoPages(m, d, a, if b < hi then b else hi);
          PresentSkip(m0, d, lo, a, if b < hi then b else hi);
          SkipsTable(m, d, a, if b < hi then b else hi);
          ShrinksMore(m0, m, m, d, lo, a, if b < hi then b else hi);
          a := (a / 1024 + 1) * 1024 - 1;
        } else {
          WalkFinds(m, m, d, a, t);
          if tabs[t][a % 1024].present {
            FreePage(d, a, t);
            ShrinksMore(m0, m, Abs(), d, lo, a, a + 1);
          } else {
            SkipsPage(m, d, a, t);
            ShrinksMore(m0, m, m, d, lo, a, a + 1);
          }
        }
        a := a + 1;
      }
      return newsz;
    }

    /** Frees the user pages, the page tables and the directory itself. */
    method Freevm(d: int)
      requires Valid() && Is(Abs(), d, Dir)
      modifies this
      ensures Valid() && Gone(old(Abs()), Abs(), d)
    {
      hide Lookup, Inv, HasTab, Shrunk, Freed, Condemned, Freeing, Gone;
      ghost var m0 := Abs();
      var sz := Deallocuvm(d, KERNBASE, 0);
      ghost var m1 := Abs();
      ShrunkDir(m0, m1, d, 0, KPAGE);
      NoUsersLeft(m0, m1, d);
      owner := Condemned(owner, d, 0);
      FreeingStarts(m1, Abs(), d);
      for i := 0 to 1024
        invariant Valid() && Freeing(m1, Abs(), d, i)
      {
        ghost var k := Abs();
        FreeingFrame(m1, k, d, i);
        if tabs[d][i].present {
          PoolFrame(tabs[d][i].frame);
          var ok := Kfree(tabs[d][i].frame * PGSIZE);
          assert ok;
        }
        FreeingNext(m1, k, Abs(), d, i);
      }
      FreeingDir(m1, Abs(), d);
      ghost var k := Abs();
      PoolFrame(d);
      var ok := Kfree(d * PGSIZE);
      assert ok;
      FreeingEnds(m0, m1, k, Abs(), d);
    }

    /** Grows the user part from oldsz to newsz bytes with zeroed pages: all of it, or none, and then
        `at` is the page that could not be had.  -2 stands for the remap panic, at a page `at` that was
        mapped already; a growth that fails before it comes to such a page unmaps it. */
    method Allocuvm(d: int, oldsz: int, newsz: int) returns (r: int, ghost at: int)
      requires Valid() && Is(Abs(), d, Dir) && 0 <= oldsz && 0 <= newsz
      modifies this
      ensures Valid()
      ensures newsz >= KERNBASE ==> r == 0 && Abs() == old(Abs())
      ensures newsz < oldsz && newsz < KERNBASE ==> r == oldsz && Abs() == old(Abs())
      ensures oldsz <= newsz < KERNBASE ==> r == newsz || r == 0 || r == -2
      ensures oldsz <= newsz < KERNBASE && r == newsz ==>
        && Grown(old(Abs()), Abs(), d, PgUp(oldsz), PgUp(newsz))
        && Unmapped(old(Abs()), d, PgUp(oldsz), PgUp(newsz))
        && |free| == |old(free)| - Need(old(Abs()), d, PgUp(oldsz), PgUp(newsz))
      ensures oldsz <= newsz < KERNBASE && r == newsz ==>
        forall w | PgUp(oldsz) <= w < PgUp(newsz) && w < KPAGE :: ZeroPage(Lookup(Abs(), d, w))
      ensures oldsz <= newsz < KERNBASE && r != newsz ==>
        && PgUp(oldsz) <= at < PgUp(newsz) && Unmapped(old(Abs()), d, PgUp(oldsz), at)
        && Need(old(Abs()), d, PgUp(oldsz), at) <= |old(free)|
      ensures oldsz <= newsz < KERNBASE && r == -2 ==>
        Lookup(old(Abs()), d, at).present && Need(old(Abs()), d, PgUp(oldsz), at) < |old(free)|
      ensures oldsz <= newsz < KERNBASE && r == 0 && newsz > 0 ==>
        && |old(free)| < Need(old(Abs()), d, PgUp(oldsz), at + 1)
        && Dropped(old(Abs()), Abs(), d, PgUp(oldsz), PgUp(newsz))
      ensures oldsz <= newsz < KERNBASE && r == 0 && newsz > 0 && Unmapped(old(Abs()), d, PgUp(oldsz), PgUp(newsz)) ==>
        FailedGrowth(old(Abs()), Abs(), d, PgUp(oldsz), PgUp(newsz), at)
      ensures oldsz <= newsz < KERNBASE && Unmapped(old(Abs()), d, PgUp(oldsz), PgUp(newsz)) ==>
        (r == newsz <==> Need(old(Abs()), d, PgUp(oldsz), PgUp(newsz)) <= |old(free)|)
    {
      hide Lookup, Inv, HasTab, Grown, Mapped, Filled, Need, TabsUpTo, Put, PgUp, Shrunk, PresentIn, FailedGrowth,
        Dropped, Counted, TabCount, ZeroPage;
      PgUpLess(0, oldsz);
      PgUpLess(0, newsz);
      at := 0;
      if newsz >= KERNBASE { return 0, at; }
      if newsz < oldsz { return oldsz, at; }
      ghost var m0 := Abs();
      ghost var lo, hi := PgUp(oldsz), PgUp(newsz);
      var a := PgUp(oldsz);
      GrowsNothing(m0, d, lo);
      PgUpOrder(oldsz, newsz);
      PgUpLess(a, newsz);
      while a * PGSIZE < newsz
        invariant a * PGSIZE < newsz <==> a < hi
        invariant lo <= a && a <= hi && Valid() && Is(Abs(), d, Dir)
        invariant Grown(m0, Abs(), d, lo, a) && TabsUpTo(m0, Abs(), d, lo, a) && Unmapped(m0, d, lo, a)
        invariant |free| == |m0.free| - Need(m0, d, lo, a)
        decreases hi - a
      {
        ghost var k := Abs();
        NeedStep(m0, k, d, lo, a, hi);
        var mem := Kalloc();
        if mem == 0 {
          var s := Deallocuvm(d, newsz, oldsz);
          GrowLoses(m0, k, Abs(), d, lo, a, hi);
          if Unmapped(m0, d, lo, hi) { GrowFailed(m0, k, Abs(), d, lo, a, hi); }
          return 0, a;
        }
        data := data[mem := Filled(0)];
        ghost var h := Abs();
        GrowReady(m0, k, h, d, lo, a, mem);
        var e, done := Mappages(d, a, 1, mem, WU);
        if e == -2 { return -2, a; }
        TabsOfTaken(k, h, d);
        if e < 0 {
          var s := Deallocuvm(d, newsz, oldsz);
          PageBack(k, h, Abs(), d, lo, hi, mem);
          GrowLoses(m0, k, Put(Abs(), mem), d, lo, a, hi);
          if Unmapped(m0, d, lo, hi) { GrowUndone(m0, k, h, Abs(), d, lo, a, hi, mem); }
          PoolFrame(mem);
          var ok := Kfree(mem * PGSIZE);
          assert ok;
          return 0, a;
        }
        GrowsOne(m0, k, h, Abs(), d, lo, a, mem);
        GrownDir(m0, Abs(), d, lo, a + 1);
        TabsNext(m0, k, Abs(), d, lo, a);
        a := a + 1;
        PgUpLess(a, newsz);
      }
      GrownIsZero(m0, Abs(), d, lo, hi);
      return newsz, at;
    }

    /** The entry maps a page of PGSIZE zero bytes that user programs may read and write. */
    ghost predicate ZeroPage(e: Pte) reads this {
      && e.present && e.flags.w && e.flags.u && e.frame in data && |data[e.frame]| == PGSIZE
      && forall j | 0 <= j < PGSIZE :: data[e.frame][j] == 0
    }

    lemma GrownIsZero(m: Mem, n: Mem, d: int, lo: int, hi: int)
      requires Grown(m, n, d, lo, hi) && Is(m, d, Dir) && 0 <= lo && n == Abs()
      ensures forall w | lo <= w < hi && w < KPAGE :: ZeroPage(Lookup(n, d, w))
    {
      hide Lookup;
      forall w | lo <= w < hi && w < KPAGE
        ensures ZeroPage(Lookup(n, d, w))
      {
        assert FreshZero(m, n, d, w);
      }
    }

    /** Pages of the kernel are out of reach for user programs; its text alone cannot be written; all of
        memory is at KERNBASE, devices are where they are, and nothing else is mapped. */
    predicate KernelOnly(e: Pte, v: int) {
      if KPAGE <= v < KPAGE + PHYSTOP || DEVSPACE <= v then
        && e.present && !e.flags.u && (!e.flags.w <==> KPAGE + EXTMEM <= v < KPAGE + kdata)
        && e.frame == if v < DEVSPACE then v - KPAGE else v
      else !e.present
    }

    lemma NoTablesYet(d: int)
      requires IsTab(Abs(), d) && tabs[d] == ZeroTable()
      ensures (forall x | 0 <= x < 1024 :: !HasTab(Abs(), d, x)) && TabCount(Abs(), d, 1024) == 0
    {
      NoneCounted(Abs(), d, 1024);
    }

    lemma SameBooks(m: Mem, n: Mem, d: int, v: int, done: int)
      requires Counted(m, n, d, v, done)
      ensures |n.free| + TabCount(n, d, 1024) == |m.free| + TabCount(m, d, 1024)
    {
      hide TabCount, HasTab;
    }

    /** setupkvm runs out of frames with a table of the kernel still missing. */
    lemma LineStopped(i: nat, m: Mem, n: Mem, d: int, done: int)
      requires EXTMEM < kdata < PHYSTOP && i < 4 && |KMAP(kdata)| == 4
      requires var k := KMAP(kdata)[i]; 0 <= done < KSize(k) && k.virt >= 0 && k.virt + KSize(k) <= NPAGES
      requires !HasTab(n, d, (KMAP(kdata)[i].virt + done) / 1024)
      requires forall x | 0 <= x < 1024 && HasTab(n, d, x) :: InKernel(x)
      ensures TabCount(n, d, 1024) <= 63
    {
      hide KMAP, KSize, HasTab, TabCount;
      var w := KMAP(kdata)[i].virt + done;
      LineInKernel(kdata, i, w);
      KernelAtMost(n, d, w / 1024, 1024);
    }

    lemma KernelIsCopy(d: int)
      requires forall x | 0 <= x < 1024 :: HasTab(Abs(), d, x) <==> InKernel(x)
      ensures CopyTabs(Abs(), d, 0)
    {
    }

    lemma KernelRights(v: int)
      requires EXTMEM < kdata < PHYSTOP && v < NPAGES
      ensures KernelOnly(KernelPte(kdata, v), v)
    {
    }

    /** A new directory with the kernel's mappings, or 0 with every frame given back. */
    method Setupkvm() returns (d: int)
      requires Valid()
      modifies this
      ensures Valid()
      ensures d == 0 ==> Restored(old(Abs()), Abs())
      ensures d != 0 ==> Is(old(Abs()), d, Free) && Is(Abs(), d, Dir) && AddedTo(old(Abs()), Abs(), d)
      ensures d != 0 ==> forall v | 0 <= v < NPAGES :: Lookup(Abs(), d, v) == KernelPte(kdata, v)
      ensures d != 0 ==> forall v | 0 <= v < NPAGES :: KernelOnly(Lookup(Abs(), d, v), v)
      ensures d != 0 <==> |old(free)| >= 65
      ensures d != 0 ==> |free| == |old(free)| - 65 && CopyTabs(Abs(), d, 0)
    {
      hide Lookup, Inv, Restored, AddedTo, Mapped, Gone, KernelUpTo, KMAP, KSize, KernelPte, HasTab, TabCount, Counted,
        CopyTabs;
      ghost var m0 := Abs();
      d := Kalloc();
      if d == 0 {
        NothingHappened(m0);
        return;
      }
      ghost var m1 := Abs();
      tabs := tabs[d := ZeroTable()];
      owner := owner[d := Dir];
      NewDirKeeps(m1, Abs(), d);
      AddedDir(m0, Abs(), d);
      KernelNothing(kdata);
      NoTablesYet(d);
      for i := 0 to 4
        invariant Valid() && Is(Abs(), d, Dir) && AddedTo(m0, Abs(), d)
        invariant forall v | 0 <= v < NPAGES :: Lookup(Abs(), d, v) == KernelUpTo(kdata, i, v)
        invariant |free| + TabCount(Abs(), d, 1024) == |m0.free| - 1
        invariant forall x | 0 <= x < 1024 && HasTab(Abs(), d, x) :: InKernel(x)
      {
        ghost var m := Abs();
        KernelLine(kdata, i);
        KernelLineCount(kdata);
        var k := KMAP(kdata)[i];
        var r, done := Mappages(d, k.virt, KSize(k), k.physStart, k.flags);
        ghost var n := Abs();
        AddedMore(m0, m, n, d, k.virt, done, k.physStart, k.flags);
        MappedDir(m, n, d, k.virt, done, k.physStart, k.flags);
        LineCounts(kdata, i, m, n, d, done);
        SameBooks(m, n, d, k.virt, done);
        if r < 0 {
          LineStopped(i, m, n, d, done);
          Freevm(d);
          AddThenGone(m0, n, Abs(), d);
          return 0;
        }
        KernelNext(kdata, m, n, d, i);
      }
      forall v | 0 <= v < NPAGES
        ensures KernelUpTo(kdata, 4, v) == KernelPte(kdata, v) && KernelOnly(KernelPte(kdata, v), v)
      {
        KernelMapComplete(kdata, v);
        KernelRights(v);
      }
      KernelTables(Abs(), d, kdata);
      KernelIsCopy(d);
    }

    /** A copy of the first sz bytes of an address space in fresh frames, or 0 with every frame given
        back.  -1 stands for the panics at a page that is not mapped.  `at` is the first page not copied. */
    method Copyuvm(pgdir: int, sz: int) returns (d: int, ghost at: int)
      requires Valid() && Is(Abs(), pgdir, Dir) && 0 <= sz <= KERNBASE
      modifies this
      ensures Valid()
      ensures d == 0 ==> Restored(old(Abs()), Abs())
      ensures 0 <= at <= PgUp(sz) && AllMapped(old(Abs()), pgdir, at)
      ensures d == -1 ==> at < PgUp(sz) && at < KPAGE && !Lookup(old(Abs()), pgdir, at).present
      ensures d == -1 ==> Frames(at) <= |old(free)|
      ensures d == 0 ==> |old(free)| < Frames(if at < PgUp(sz) then at + 1 else at)
      ensures d == 0 && at < PgUp(sz) && 65 <= |old(free)| ==> at < KPAGE && Lookup(old(Abs()), pgdir, at).present
      ensures d != 0 && d != -1 ==> at == PgUp(sz) && |free| == |old(free)| - Frames(at)
      ensures AllMapped(old(Abs()), pgdir, PgUp(sz)) ==> (d != 0 <==> Frames(PgUp(sz)) <= |old(free)|)
      ensures d == -1 ==> !AllMapped(old(Abs()), pgdir, PgUp(sz))
      ensures d != 0 && d != -1 ==> AllMapped(old(Abs()), pgdir, PgUp(sz))
      ensures d != 0 && d != -1 ==> Is(old(Abs()), d, Free) && Is(Abs(), d, Dir) && AddedTo(old(Abs()), Abs(), d)
      ensures d != 0 && d != -1 ==> CopyOf(old(Abs()), Abs(), pgdir, d, PgUp(sz), kdata)
      ensures d != 0 && d != -1 ==> forall v | 0 <= v < PgUp(sz) && v < KPAGE ::
        SamePage(Lookup(old(Abs()), pgdir, v), old(Abs()).data, Lookup(Abs(), d, v), Abs().data)
    {
      hide Lookup, Inv, Restored, AddedTo, Mapped, Gone, KernelPte, CopyOf, PgUp, Put, Walked, HasTab, Counted,
        CopyTabs, Frames, KernelOnly, SamePage, InPool;
      ghost var m0 := Abs();
      at := 0;
      PgUpLess(0, sz);
      FramesGrow(0, PgUp(sz));
      d := Setupkvm();
      if d == 0 { return; }
      CopiesNothing(m0, Abs(), pgdir, d, kdata);
      var i := 0;
      while i * PGSIZE < sz
        invariant 0 <= i <= PgUp(sz) <= KPAGE && Valid() && Is(Abs(), d, Dir)
        invariant i * PGSIZE < sz <==> i < PgUp(sz)
        invariant AddedTo(m0, Abs(), d) && CopyOf(m0, Abs(), pgdir, d, i, kdata) && AllMapped(m0, pgdir, i)
        invariant CopyTabs(Abs(), d, i) && |free| == |m0.free| - Frames(i)
        decreases PgUp(sz) - i
      {
        at := i;
        FramesGrow(i, i);
        FramesGrow(i + 1, PgUp(sz));
        ghost var k := Abs();
        ParentSame(m0, k, pgdir, d, i);
        var pte := Walkpgdir(pgdir, i, false);
        if pte == 0 {
          NoTableNoPages(k, pgdir, i, i + 1);
          return -1, i;
        }
        WalkFinds(k, k, pgdir, i, pte);
        if !tabs[pte][i % 1024].present { return -1, i; }
        ParentSeen(m0, k, pgdir, d, i);
        var pa, flags := tabs[pte][i % 1024].frame, tabs[pte][i % 1024].flags;
        FrameHasData(k, pgdir, i);
        var mem := Kalloc();
        if mem == 0 {
          Freevm(d);
          AddThenGone(m0, k, Abs(), d);
          return 0, i;
        }
        data := data[mem := data[pa]];
        ghost var h := Abs();
        CopyTabsNext(k, h, h, d, i);
        CopyReady(m0, k, h, pgdir, d, i, mem, k.data[pa], kdata);
        var e, done := Mappages(d, i, 1, mem, flags);
        if e < 0 {
          OwnerPositive(h, mem);
          PoolFrame(mem);
          var ok := Kfree(mem * PGSIZE);
          assert ok;
          AddedHeld(m0, k, h, Abs(), d, mem, k.data[pa]);
          ghost var p := Abs();
          Freevm(d);
          AddThenGone(m0, p, Abs(), d);
          return 0, i;
        }
        CopyTabsNext(k, h, Abs(), d, i);
        AddedUser(m0, k, h, Abs(), d, i, mem, k.data[pa], flags);
        CopiesOne(m0, k, h, Abs(), pgdir, d, i, mem, pa, flags, kdata);
        MappedDir(h, Abs(), d, i, 1, mem, flags);
        i := i + 1;
        PgUpLess(i, sz);
      }
      at := PgUp(sz);
      DirIsFrame(d);
      CopiesAre(m0, Abs(), pgdir, d, PgUp(sz));
    }

    /** Two entries map different frames with equal rights and equal bytes. */
    predicate SamePage(p: Pte, before: map<int, Page>, q: Pte, after: map<int, Page>) {
      && p.present && q.present && q.frame != p.frame && q.flags == p.flags
      && p.frame in before && q.frame in after && after[q.frame] == before[p.frame]
    }

    lemma CopiesAre(m: Mem, n: Mem, d: int, c: int, count: int)
      requires Inv(m) && Is(m, d, Dir) && CopyOf(m, n, d, c, count, kdata)
      ensures forall v | 0 <= v < count && v < KPAGE :: SamePage(Lookup(m, d, v), m.data, Lookup(n, c, v), n.data)
    {
      hide Lookup, Inv;
      forall v | 0 <= v < count && v < KPAGE
        ensures SamePage(Lookup(m, d, v), m.data, Lookup(n, c, v), n.data)
      {
        assert Copied(m, n, d, c, v);
        FrameHasData(m, d, v);
      }
    }

    lemma DirIsFrame(d: int)
      requires Valid() && Is(Abs(), d, Dir)
      ensures d > 0
    {
    }

    /** Where kfree finds a frame by its address. */
    lemma PoolFrame(f: int)
      ensures f * PGSIZE % PGSIZE == 0 && f * PGSIZE / PGSIZE == f
      ensures 0 < end ==> (InPool(Abs(), f) <==> end <= f * PGSIZE < PHYSTOP * PGSIZE)
    {
    }
  }
}
