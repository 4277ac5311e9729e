/** How many frames address spaces take: page tables are counted, and frames that become tables are the
    ones that leave the free list. */
module FrameCounts {
  import opened PageTables
  import opened AddressSpaces

  /** The page tables of directory d among its first n entries. */
  ghost function TabCount(m: Mem, d: int, n: nat): nat
    requires n <= 1024
  {
    if n == 0 then 0 else TabCount(m, d, n - 1) + if HasTab(m, d, n - 1) then 1 else 0
  }

  lemma {:induction false} CountAdd(m: Mem, n: Mem, d: int, y: int, k: nat)
    requires k <= 1024 && 0 <= y < 1024
    requires forall x | 0 <= x < 1024 :: HasTab(n, d, x) <==> HasTab(m, d, x) || x == y
    ensures TabCount(n, d, k) == TabCount(m, d, k) + if y < k && !HasTab(m, d, y) then 1 else 0
  {
    hide HasTab;
    if k > 0 { CountAdd(m, n, d, y, k - 1); }
  }

  lemma {:induction false} SameCount(m: Mem, n: Mem, d: int, k: nat)
    requires k <= 1024 && forall x | 0 <= x < 1024 :: HasTab(n, d, x) <==> HasTab(m, d, x)
    ensures TabCount(n, d, k) == TabCount(m, d, k)
  {
    hide HasTab;
    if k > 0 { SameCount(m, n, d, k - 1); }
  }

  /** From m to n mappages has mapped `done` pages from v on: their tables are there, and each new one
      took a frame. */
  ghost predicate Counted(m: Mem, n: Mem, d: int, v: int, done: int) {
    && |n.free| + TabCount(n, d, 1024) == |m.free| + TabCount(m, d, 1024)
    && forall x | 0 <= x < 1024 ::
         HasTab(n, d, x) <==> HasTab(m, d, x) || (done > 0 && v / 1024 <= x <= (v + done - 1) / 1024)
  }

  lemma CountedNone(m: Mem, d: int, v: int)
    ensures Counted(m, m, d, v, 0)
  {
  }

  lemma CountedNext(m: Mem, k: Mem, n: Mem, d: int, v: int, done: int)
    requires 0 <= v && 0 <= done && v + done < NPAGES && Counted(m, k, d, v, done)
    requires |n.free| == |k.free| - (if HasTab(k, d, (v + done) / 1024) then 0 else 1)
    requires forall x | 0 <= x < 1024 :: HasTab(n, d, x) <==> HasTab(k, d, x) || x == (v + done) / 1024
    ensures Counted(m, n, d, v, done + 1)
  {
    hide HasTab, TabCount;
    CountAdd(k, n, d, (v + done) / 1024, 1024);
  }

  lemma CountedOne(m: Mem, n: Mem, d: int, v: int)
    requires 0 <= v < NPAGES && Counted(m, n, d, v, 1)
    ensures |n.free| == |m.free| - (if HasTab(m, d, v / 1024) then 0 else 1)
    ensures forall x | 0 <= x < 1024 :: HasTab(n, d, x) <==> HasTab(m, d, x) || x == v / 1024
  {
    hide HasTab, TabCount;
    CountAdd(m, n, d, v / 1024, 1024);
  }

  // ----- setupkvm -----

  /** The directory entries that the kernel's mappings need: memory at KERNBASE, and the devices. */
  predicate InKernel(x: int) { 512 <= x < 568 || 1016 <= x < 1024 }

  /** How many of the first n there are. */
  function KernelCount(n: int): int {
    (if n <= 512 then 0 else if n <= 568 then n - 512 else 56) + (if n <= 1016 then 0 else n - 1016)
  }

  /** No table outside those: no more of them; and fewer if the one for y is missing. */
  lemma {:induction false} KernelAtMost(m: Mem, d: int, y: int, k: nat)
    requires k <= 1024 && InKernel(y) && !HasTab(m, d, y)
    requires forall x | 0 <= x < 1024 && HasTab(m, d, x) :: InKernel(x)
    ensures TabCount(m, d, k) <= KernelCount(k) - if y < k then 1 else 0
  {
    hide HasTab;
    if k > 0 { KernelAtMost(m, d, y, k - 1); }
  }

  lemma {:induction false} KernelExactly(m: Mem, d: int, k: nat)
    requires k <= 1024 && forall x | 0 <= x < 1024 :: HasTab(m, d, x) <==> InKernel(x)
    ensures TabCount(m, d, k) == KernelCount(k)
  {
    hide HasTab;
    if k > 0 { KernelExactly(m, d, k - 1); }
  }

  lemma {:induction false} NoneCounted(m: Mem, d: int, k: nat)
    requires k <= 1024 && forall x | 0 <= x < 1024 :: !HasTab(m, d, x)
    ensures TabCount(m, d, k) == 0
  {
    hide HasTab;
    if k > 0 { NoneCounted(m, d, k - 1); }
  }

  /** The lines of kmap need tables only where the kernel is. */
  lemma LineInKernel(data: int, i: nat, w: int)
    requires EXTMEM < data < PHYSTOP && i < 4
    requires var k := KMAP(data)[i]; k.virt <= w < k.virt + KSize(k)
    ensures InKernel(w / 1024)
  {
  }

  /** One line more, mapped or not to its end: still only tables of the kernel. */
  lemma LineCounts(data: int, i: nat, m: Mem, n: Mem, d: int, done: int)
    requires EXTMEM < data < PHYSTOP && i < 4 && |KMAP(data)| == 4
    requires 0 <= done <= KSize(KMAP(data)[i]) && Counted(m, n, d, KMAP(data)[i].virt, done)
    requires forall x | 0 <= x < 1024 && HasTab(m, d, x) :: InKernel(x)
    ensures forall x | 0 <= x < 1024 && HasTab(n, d, x) :: InKernel(x)
  {
    hide HasTab, TabCount, KMAP, KSize;
    var v := KMAP(data)[i].virt;
    forall x | 0 <= x < 1024 && HasTab(n, d, x)
      ensures InKernel(x)
    {
      if !HasTab(m, d, x) {
        var w := if x == v / 1024 then v else x * 1024;
        LineInKernel(data, i, w);
      }
    }
  }

  /** With all kernel pages mapped, all those tables are there. */
  lemma KernelTables(m: Mem, d: int, data: int)
    requires forall v | 0 <= v < NPAGES :: Lookup(m, d, v) == KernelPte(data, v)
    requires forall x | 0 <= x < 1024 && HasTab(m, d, x) :: InKernel(x)
    ensures (forall x | 0 <= x < 1024 :: HasTab(m, d, x) <==> InKernel(x)) && TabCount(m, d, 1024) == 64
  {
    forall x | 0 <= x < 1024 && InKernel(x)
      ensures HasTab(m, d, x)
    {
      assert Lookup(m, d, x * 1024) == KernelPte(data, x * 1024);
    }
    hide Lookup, HasTab;
    KernelExactly(m, d, 1024);
  }

  // ----- copyuvm -----

  /** The frames of an address space with n user pages: the directory, 64 tables of the kernel, the pages
      and their tables. */
  function Frames(n: int): int { 65 + n + (n + 1023) / 1024 }

  /** The tables of a copy with n pages. */
  ghost predicate CopyTabs(m: Mem, d: int, n: int) {
    forall x | 0 <= x < 1024 :: HasTab(m, d, x) <==> InKernel(x) || x * 1024 < n
  }

  lemma CopyTabsNext(m: Mem, h: Mem, n: Mem, d: int, i: int)
    requires 0 <= i < KPAGE && CopyTabs(m, d, i) && h.tabs == m.tabs && |h.free| == |m.free| - 1
    ensures HasTab(h, d, i / 1024) <==> Frames(i + 1) == Frames(i) + 1
    ensures |n.free| == |h.free| - (if HasTab(h, d, i / 1024) then 0 else 1) ==>
      |n.free| == |m.free| - (Frames(i + 1) - Frames(i))
    ensures (forall x | 0 <= x < 1024 :: HasTab(n, d, x) <==> HasTab(h, d, x) || x == i / 1024) ==>
      CopyTabs(n, d, i + 1)
  {
    assert HasTab(h, d, i / 1024) <==> HasTab(m, d, i / 1024);
    forall x | 0 <= x < 1024
      ensures HasTab(h, d, x) <==> HasTab(m, d, x)
    {
    }
    hide HasTab;
  }

  lemma FramesGrow(i: int, n: int)
    requires 0 <= i <= n
    ensures Frames(i) <= Frames(n) && Frames(0) == 65 && Frames(i) < Frames(i + 1) <= Frames(i) + 2
  {
  }
}
