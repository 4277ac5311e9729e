/** What bmap and one iteration of writei do to a file system, and what a whole writei adds up to. */
module FileWrites {
  import opened FileBlocks
  import opened FileBudget

  /** A pointer slot of the file system before or after bmap(i, bn) returned `addr`. */
  function MappedSlot(sb: Super, fs: Fs, f: Fs, i: int, bn: int, addr: int, i': int, k': int): int
    requires Shape(sb, fs) && Shape(sb, f) && IsSlot(sb, i', k') && 0 <= i < sb.ninodes
  {
    if i' == i && k' == DataSlot(bn) then addr
    else if i' == i && k' == NDIRECT && bn >= NDIRECT then f.ino[i].addrs[NDIRECT]
    else Slot(sb, fs, i', k')
  }

  ghost predicate SameElsewhere(sb: Super, fs: Fs, f: Fs, i: int)
    requires Shape(sb, fs) && Shape(sb, f)
  {
    && f.dino == fs.dino
    && (forall i' | 0 <= i' < sb.ninodes :: f.ino[i'].size == fs.ino[i'].size)
    && (forall i' | 0 <= i' < sb.ninodes && i' != i :: f.ino[i'] == fs.ino[i'])
  }

  /** No block changes hands, except free ones; and no block but an indirect one changes contents. */
  ghost predicate OnlyFreeTaken(sb: Super, fs: Fs, own: seq<Owner>, f: Fs, own': seq<Owner>)
    requires Shape(sb, fs) && Shape(sb, f) && |own| == |own'| == sb.size
  {
    && (forall x | 0 <= x < sb.size && own[x] != Free :: own'[x] == own[x])
    && (forall x | 0 <= x < sb.size && own[x] == Free :: own'[x] != Reserved)
    && (forall x | 0 <= x < sb.size && own[x] != Free && !(own[x].Own? && own[x].k == NDIRECT) :: f.blk[x] == fs.blk[x])
  }

  /** bmap(i, bn) == addr, from `fs` to `f`. */
  ghost predicate Mapped(sb: Super, fs: Fs, own: seq<Owner>, f: Fs, own': seq<Owner>, i: int, bn: int, addr: int) {
    && Owned(sb, fs, own) && Owned(sb, f, own') && 0 <= i < sb.ninodes && 0 <= bn < MAXFILE
    && SameElsewhere(sb, fs, f, i) && OnlyFreeTaken(sb, fs, own, f, own')
    && 0 < addr < sb.size && own'[addr] == Own(i, DataSlot(bn))
    && (Slot(sb, fs, i, DataSlot(bn)) != 0 ==> f == fs && own' == own && addr == Slot(sb, fs, i, DataSlot(bn)))
    && (bn >= NDIRECT ==> f.ino[i].addrs[NDIRECT] != 0)
    && (fs.ino[i].addrs[NDIRECT] != 0 ==> f.ino[i].addrs[NDIRECT] == fs.ino[i].addrs[NDIRECT])
    && (forall i', k' | IsSlot(sb, i', k') :: Slot(sb, f, i', k') == MappedSlot(sb, fs, f, i, bn, addr, i', k'))
  }

  /** Blocks that bmap has to allocate. */
  function MapCost(sb: Super, fs: Fs, i: int, bn: int): int
    requires Shape(sb, fs) && 0 <= i < sb.ninodes && 0 <= bn < MAXFILE
  {
    (if Slot(sb, fs, i, DataSlot(bn)) == 0 then 1 else 0)
    + (if bn >= NDIRECT && fs.ino[i].addrs[NDIRECT] == 0 then 1 else 0)
  }

  lemma ContentsSize(sb: Super, fs: Fs, own: seq<Owner>, i: int)
    requires Inv(sb, fs, own) && 0 <= i < sb.ninodes
    ensures Shape(sb, fs) && 0 <= i < |fs.ino| && |own| == sb.size && 0 <= fs.ino[i].size <= MAXFILE * BSIZE
    ensures |Contents(sb, fs, i)| == fs.ino[i].size
  {
    hide Slot, Dense, ByteAt;
  }

  lemma EmptySlotCosts(sb: Super, fs: Fs, i: int, bn: int)
    requires Shape(sb, fs) && 0 <= i < sb.ninodes && 0 <= bn < MAXFILE && Slot(sb, fs, i, DataSlot(bn)) == 0
    requires NDIRECT <= bn ==> fs.ino[i].addrs[NDIRECT] != 0
    ensures MapCost(sb, fs, i, bn) == 1
  {
  }

  lemma GivesFree(sb: Super, fs: Fs, own: seq<Owner>, i: int, k: int, b: int)
    requires CanGive(sb, fs, own, i, k, b)
    ensures Shape(sb, fs) && 0 <= i < sb.ninodes && IsSlot(sb, i, k) && Slot(sb, fs, i, k) == 0
    ensures 0 <= b < |own| && own[b] == Free && (NDIRECT < k ==> fs.ino[i].addrs[NDIRECT] != 0)
  {
  }

  lemma GiveIsMapped(sb: Super, fs: Fs, own: seq<Owner>, i: int, bn: int, b: int)
    requires CanGive(sb, fs, own, i, DataSlot(bn), b) && 0 <= bn < MAXFILE
    requires NDIRECT <= bn ==> fs.ino[i].addrs[NDIRECT] != 0
    ensures Shape(sb, Claim(fs, b)) && Shape(sb, Point(sb, Claim(fs, b), i, DataSlot(bn), b))
    ensures Mapped(sb, fs, own, Point(sb, Claim(fs, b), i, DataSlot(bn), b), own[b := Own(i, DataSlot(bn))], i, bn, b)
  {
    hide Slot, PutWord, Zero, ValidBlk;
    GiveKeepsOwned(sb, fs, own, i, DataSlot(bn), b);
    var f := Point(sb, Claim(fs, b), i, DataSlot(bn), b);
    GiveTakesFree(sb, fs, own, i, DataSlot(bn), b);
    IndirectIsSlot(sb, fs, i);
    IndirectIsSlot(sb, f, i);
  }

  lemma IndirectIsSlot(sb: Super, fs: Fs, i: int)
    requires Shape(sb, fs) && 0 <= i < sb.ninodes
    ensures IsSlot(sb, i, NDIRECT) && Slot(sb, fs, i, NDIRECT) == fs.ino[i].addrs[NDIRECT]
  {
  }

  lemma GiveTakesFree(sb: Super, fs: Fs, own: seq<Owner>, i: int, k: int, b: int)
    requires CanGive(sb, fs, own, i, k, b)
    requires Shape(sb, Claim(fs, b)) && Shape(sb, Point(sb, Claim(fs, b), i, k, b))
    ensures OnlyFreeTaken(sb, fs, own, Point(sb, Claim(fs, b), i, k, b), own[b := Own(i, k)])
    ensures SameElsewhere(sb, fs, Point(sb, Claim(fs, b), i, k, b), i)
  {
    hide Slot, OnlyFreeTaken, SameElsewhere, Point, Claim;
    if NDIRECT < k { IndirectOwned(sb, fs, own, i); }
    PointTakesFree(sb, fs, own, i, k, b);
  }

  lemma PointTakesFree(sb: Super, fs: Fs, own: seq<Owner>, i: int, k: int, b: int)
    requires Shape(sb, fs) && IsSlot(sb, i, k) && |own| == sb.size && 0 <= b < sb.size && own[b] == Free
    requires Shape(sb, Claim(fs, b)) && Shape(sb, Point(sb, Claim(fs, b), i, k, b))
    requires NDIRECT < k ==> own[fs.ino[i].addrs[NDIRECT]] == Own(i, NDIRECT)
    ensures OnlyFreeTaken(sb, fs, own, Point(sb, Claim(fs, b), i, k, b), own[b := Own(i, k)])
    ensures SameElsewhere(sb, fs, Point(sb, Claim(fs, b), i, k, b), i)
  {
    hide PutWord, Zero, ValidBlk;
  }

  /** Allocating the indirect block first, then mapping through it. */
  lemma IndirectThenMapped(sb: Super, fs: Fs, own: seq<Owner>, i: int, ind: int, f: Fs, own': seq<Owner>, bn: int,
                           addr: int)
    requires NDIRECT <= bn < MAXFILE && CanGive(sb, fs, own, i, NDIRECT, ind)
    requires Shape(sb, Claim(fs, ind)) && Shape(sb, Point(sb, Claim(fs, ind), i, NDIRECT, ind))
    requires Mapped(sb, Point(sb, Claim(fs, ind), i, NDIRECT, ind), own[ind := Own(i, NDIRECT)], f, own', i, bn, addr)
    ensures Mapped(sb, fs, own, f, own', i, bn, addr)
  {
    GiveKeepsOwned(sb, fs, own, i, NDIRECT, ind);
    GiveTakesFree(sb, fs, own, i, NDIRECT, ind);
    IndirectIsSlot(sb, fs, i);
    assert Slot(sb, fs, i, DataSlot(bn)) == 0;
    ComposeMapped(sb, fs, own, Point(sb, Claim(fs, ind), i, NDIRECT, ind), own[ind := Own(i, NDIRECT)], i, ind, f, own',
      bn, addr);
  }

  lemma ComposeMapped(sb: Super, fs: Fs, own: seq<Owner>, g: Fs, own1: seq<Owner>, i: int, ind: int,
                      f: Fs, own': seq<Owner>, bn: int, addr: int)
    requires NDIRECT <= bn < MAXFILE && CanGive(sb, fs, own, i, NDIRECT, ind) && Shape(sb, g)
    requires Mapped(sb, g, own1, f, own', i, bn, addr) && own1 == own[ind := Own(i, NDIRECT)]
    requires OnlySlot(sb, fs, g, i, NDIRECT, ind) && SameElsewhere(sb, fs, g, i)
    requires OnlyFreeTaken(sb, fs, own, g, own1)
    requires fs.ino[i].addrs[NDIRECT] == 0 && Slot(sb, fs, i, DataSlot(bn)) == 0
    ensures Mapped(sb, fs, own, f, own', i, bn, addr)
  {
    hide Slot;
  }

  // ----- contents under bmap and under one block write -----

  /** A data slot in use holds an owned, non-indirect block. */
  lemma SlotInRange(sb: Super, fs: Fs, own: seq<Owner>, i: int, bn: int)
    requires Owned(sb, fs, own) && 0 <= i < sb.ninodes && 0 <= bn < MAXFILE && Slot(sb, fs, i, DataSlot(bn)) != 0
    ensures var a := Slot(sb, fs, i, DataSlot(bn)); 0 < a < sb.size && own[a] == Own(i, DataSlot(bn))
  {
  }

  lemma MappedFacts(sb: Super, fs: Fs, own: seq<Owner>, f: Fs, own': seq<Owner>, i: int, bn: int, addr: int)
    requires Mapped(sb, fs, own, f, own', i, bn, addr)
    ensures Owned(sb, f, own') && Shape(sb, f) && 0 <= i < sb.ninodes && 0 < addr < sb.size
    ensures IsSlot(sb, i, DataSlot(bn)) && Slot(sb, f, i, DataSlot(bn)) == addr
  {
  }

  lemma MappedKeepsByte(sb: Super, fs: Fs, own: seq<Owner>, f: Fs, own': seq<Owner>, i: int, bn: int, addr: int,
                        i': int, off: int)
    requires Mapped(sb, fs, own, f, own', i, bn, addr)
    requires 0 <= i' < sb.ninodes && 0 <= off < MAXFILE * BSIZE && Slot(sb, fs, i', DataSlot(off / BSIZE)) != 0
    ensures ByteAt(sb, f, i', off) == ByteAt(sb, fs, i', off)
    ensures Slot(sb, f, i', DataSlot(off / BSIZE)) == Slot(sb, fs, i', DataSlot(off / BSIZE))
  {
  }

  /** memmove of s into block data at o. */
  function Patch(data: Blk, o: int, s: seq<int>): Blk
    requires 0 <= o && o + |s| <= |data.bytes|
  {
    Blk(data.bytes[..o] + s + data.bytes[o + |s|..])
  }

  lemma PatchedByte(sb: Super, f: Fs, own: seq<Owner>, i: int, off: int, addr: int, s: seq<int>, g: Fs, i': int, o: int)
    requires Owned(sb, f, own) && Owned(sb, g, own) && 0 <= i < sb.ninodes && 0 <= i' < sb.ninodes
    requires 0 <= off < MAXFILE * BSIZE && 0 <= o < MAXFILE * BSIZE
    requires off % BSIZE + |s| <= BSIZE && Slot(sb, f, i, DataSlot(off / BSIZE)) == addr && addr != 0
    requires 0 < addr < sb.size && g.blk == f.blk[addr := Patch(f.blk[addr], off % BSIZE, s)]
    requires Slot(sb, f, i', DataSlot(o / BSIZE)) != 0
    requires Slot(sb, g, i', DataSlot(o / BSIZE)) == Slot(sb, f, i', DataSlot(o / BSIZE))
    ensures ByteAt(sb, g, i', o) == if i' == i && off <= o < off + |s| then s[o - off] else ByteAt(sb, f, i', o)
  {
    hide Slot;
    SlotInRange(sb, f, own, i, off / BSIZE);
    SlotInRange(sb, f, own, i', o / BSIZE);
    if i' == i && o / BSIZE == off / BSIZE {
      assert o - off == o % BSIZE - off % BSIZE;
    }
  }

  // ----- a writei in progress -----

  ghost predicate SameSlots(sb: Super, fs: Fs, f: Fs) {
    Shape(sb, fs) && Shape(sb, f) && forall i, k | IsSlot(sb, i, k) :: Slot(sb, f, i, k) == Slot(sb, fs, i, k)
  }

  lemma PatchKeepsSlots(sb: Super, fs: Fs, own: seq<Owner>, i: int, bn: int, addr: int, o: int, s: seq<int>)
    requires Owned(sb, fs, own) && 0 < addr < sb.size && own[addr] == Own(i, DataSlot(bn)) && 0 <= bn < MAXFILE
    requires 0 <= o && o + |s| <= BSIZE && |fs.blk[addr].bytes| == BSIZE && forall j | 0 <= j < |s| :: 0 <= s[j] < 256
    ensures SameSlots(sb, fs, fs.(blk := fs.blk[addr := Patch(fs.blk[addr], o, s)]))
  {
    hide Slot;
    PatchValid(fs.blk[addr], o, s);
    DataKeepsOwned(sb, fs, own, addr, Patch(fs.blk[addr], o, s));
  }

  /** The first `tot` bytes of src are in place at off; everything else is as in fs0. */
  ghost predicate WroteUpTo(sb: Super, fs0: Fs, own0: seq<Owner>, fs: Fs, own: seq<Owner>, i: int, off: int,
                            src: seq<int>, tot: int) {
    && Inv(sb, fs0, own0) && Owned(sb, fs, own) && 0 <= i < sb.ninodes
    && 0 <= off <= fs0.ino[i].size && 0 <= tot <= |src| && off + |src| <= MAXFILE * BSIZE
    && SameElsewhere(sb, fs0, fs, i) && (forall x | 0 <= x < sb.size :: own[x] == Reserved <==> own0[x] == Reserved)
    && Dense(sb, fs, i, Reach(fs0.ino[i].size, off + tot))
    && (forall i', k | IsSlot(sb, i', k) && (i' != i || Slot(sb, fs0, i', k) != 0) ::
          Slot(sb, fs, i', k) == Slot(sb, fs0, i', k))
    && BytesUpTo(sb, fs0, fs, i, off, src, tot)
  }

  ghost predicate BytesUpTo(sb: Super, fs0: Fs, fs: Fs, i: int, off: int, src: seq<int>, tot: int)
    requires Shape(sb, fs0) && Shape(sb, fs) && 0 <= i < sb.ninodes && 0 <= tot <= |src| && 0 <= off
    requires off + |src| <= MAXFILE * BSIZE
    requires forall i' | 0 <= i' < sb.ninodes :: 0 <= fs0.ino[i'].size <= MAXFILE * BSIZE
  {
    forall i', o | 0 <= i' < sb.ninodes &&
      0 <= o < (if i' == i then Max(fs0.ino[i].size, off + tot) else fs0.ino[i'].size) ::
      ByteAt(sb, fs, i', o) == Expected(sb, fs0, i, off, src, tot, i', o)
  }

  lemma MappedDense(sb: Super, fs: Fs, own: seq<Owner>, f: Fs, own': seq<Owner>, i: int, bn: int, addr: int, n: int)
    requires Mapped(sb, fs, own, f, own', i, bn, addr) && Dense(sb, fs, i, n) && bn <= n
    ensures Dense(sb, f, i, Max(n, bn + 1))
    ensures MapCost(sb, fs, i, bn) == (if bn < n then 0 else if bn == NDIRECT then 2 else 1)
  {
    hide Slot;
    IndirectIsSlot(sb, fs, i);
    IndirectIsSlot(sb, f, i);
    forall x | 0 <= x < MAXFILE
      ensures Slot(sb, f, i, DataSlot(x)) != 0 <==> x < Max(n, bn + 1)
    {
      assert IsSlot(sb, i, DataSlot(x));
    }
  }

  /** One iteration: bmap, patch, and the invariant with `tot` moved on. */
  lemma WriteStep(sb: Super, fs0: Fs, own0: seq<Owner>, fs: Fs, own: seq<Owner>, i: int, off: int, src: seq<int>,
                  tot: int, f: Fs, own': seq<Owner>, addr: int, m: int)
    requires WroteUpTo(sb, fs0, own0, fs, own, i, off, src, tot)
    requires 0 < m <= |src| - tot && m <= BSIZE - (off + tot) % BSIZE && (0 < tot ==> (off + tot) % BSIZE == 0)
    requires forall j | 0 <= j < |src| :: 0 <= src[j] < 256
    requires Mapped(sb, fs, own, f, own', i, (off + tot) / BSIZE, addr)
    ensures Shape(sb, f)
    ensures var g := f.(blk := f.blk[addr := Patch(f.blk[addr], (off + tot) % BSIZE, src[tot..tot + m])]);
      WroteUpTo(sb, fs0, own0, g, own', i, off, src, tot + m)
  {
    var bn := (off + tot) / BSIZE;
    var data := Patch(f.blk[addr], (off + tot) % BSIZE, src[tot..tot + m]);
    var g := f.(blk := f.blk[addr := data]);
    OneMoreBlock(fs0.ino[i].size, off, tot, m);
    MappedDense(sb, fs, own, f, own', i, bn, addr, Reach(fs0.ino[i].size, off + tot));
    PatchValid(f.blk[addr], (off + tot) % BSIZE, src[tot..tot + m]);
    DataKeepsOwned(sb, f, own', addr, data);
    WriteStepBytes(sb, fs0, own0, fs, own, i, off, src, tot, f, own', addr, m, g);
    WriteStepSlots(sb, fs0, own0, fs, own, i, off, src, tot, f, own', addr, m, g);
  }

  lemma PatchValid(data: Blk, o: int, s: seq<int>)
    requires ValidBlk(data) && 0 <= o && o + |s| <= BSIZE && forall j | 0 <= j < |s| :: 0 <= s[j] < 256
    ensures ValidBlk(Patch(data, o, s))
  {
  }

  lemma WriteStepSlots(sb: Super, fs0: Fs, own0: seq<Owner>, fs: Fs, own: seq<Owner>, i: int, off: int, src: seq<int>,
                       tot: int, f: Fs, own': seq<Owner>, addr: int, m: int, g: Fs)
    requires WroteUpTo(sb, fs0, own0, fs, own, i, off, src, tot) && 0 < m <= |src| - tot
    requires Mapped(sb, fs, own, f, own', i, (off + tot) / BSIZE, addr)
    requires Dense(sb, f, i, Reach(fs0.ino[i].size, off + tot + m))
    requires Owned(sb, g, own') && g == f.(blk := g.blk)
    requires forall i', k | IsSlot(sb, i', k) :: Slot(sb, g, i', k) == Slot(sb, f, i', k)
    ensures Dense(sb, g, i, Reach(fs0.ino[i].size, off + tot + m))
    ensures forall i', k | IsSlot(sb, i', k) && (i' != i || Slot(sb, fs0, i', k) != 0) ::
      Slot(sb, g, i', k) == Slot(sb, fs0, i', k)
    ensures SameElsewhere(sb, fs0, g, i)
    ensures forall x | 0 <= x < sb.size :: own'[x] == Reserved <==> own0[x] == Reserved
  {
  }

  /** What byte o of inode i' must be once `tot` bytes of src are in place. */
  function Expected(sb: Super, fs0: Fs, i: int, off: int, src: seq<int>, tot: int, i': int, o: int): int
    requires Shape(sb, fs0) && 0 <= i' < sb.ninodes && 0 <= o < MAXFILE * BSIZE && 0 <= tot <= |src|
  {
    if i' == i && off <= o < off + tot then src[o - off] else ByteAt(sb, fs0, i', o)
  }

  /** A byte in the range just written. */
  lemma NewByte(sb: Super, f: Fs, own: seq<Owner>, i: int, p: int, addr: int, s: seq<int>, g: Fs, o: int)
    requires Owned(sb, f, own) && Owned(sb, g, own) && 0 <= i < sb.ninodes
    requires 0 <= p <= o < p + |s| && o < MAXFILE * BSIZE && p % BSIZE + |s| <= BSIZE
    requires Slot(sb, f, i, DataSlot(p / BSIZE)) == addr && 0 < addr < sb.size
    requires g.blk == f.blk[addr := Patch(f.blk[addr], p % BSIZE, s)]
    requires forall i', k | IsSlot(sb, i', k) :: Slot(sb, g, i', k) == Slot(sb, f, i', k)
    ensures ByteAt(sb, g, i, o) == s[o - p]
  {
  }

  lemma WriteStepByte(sb: Super, fs0: Fs, own0: seq<Owner>, fs: Fs, own: seq<Owner>, i: int, off: int, src: seq<int>,
                      tot: int, f: Fs, own': seq<Owner>, addr: int, m: int, g: Fs, i': int, o: int)
    requires 0 <= tot && 0 <= off && WroteUpTo(sb, fs0, own0, fs, own, i, off, src, tot)
    requires 0 < m <= |src| - tot && m <= BSIZE - (off + tot) % BSIZE
    requires Mapped(sb, fs, own, f, own', i, (off + tot) / BSIZE, addr)
    requires Owned(sb, g, own')
    requires g.blk == f.blk[addr := Patch(f.blk[addr], (off + tot) % BSIZE, src[tot..tot + m])]
    requires forall i', k | IsSlot(sb, i', k) :: Slot(sb, g, i', k) == Slot(sb, f, i', k)
    requires 0 <= i' < sb.ninodes && 0 <= o < MAXFILE * BSIZE
    requires (i' == i && off + tot <= o < off + tot + m)
          || o < (if i' == i then Max(fs0.ino[i].size, off + tot) else fs0.ino[i'].size)
    ensures ByteAt(sb, g, i', o) == Expected(sb, fs0, i, off, src, tot + m, i', o)
  {
    hide Slot, ByteAt, Mapped, WroteUpTo, Owned;
    var p := off + tot;
    var s := src[tot..tot + m];
    MappedFacts(sb, fs, own, f, own', i, p / BSIZE, addr);
    if i' == i && p <= o < p + m {
      NewByte(sb, f, own', i, p, addr, s, g, o);
    } else {
      assert IsSlot(sb, i', DataSlot(o / BSIZE));
      OldByte(sb, fs0, own0, fs, own, i, off, src, tot, i', o);
      MappedKeepsByte(sb, fs, own, f, own', i, p / BSIZE, addr, i', o);
      PatchedByte(sb, f, own', i, p, addr, s, g, i', o);
    }
  }

  lemma WriteStepBytes(sb: Super, fs0: Fs, own0: seq<Owner>, fs: Fs, own: seq<Owner>, i: int, off: int, src: seq<int>,
                       tot: int, f: Fs, own': seq<Owner>, addr: int, m: int, g: Fs)
    requires WroteUpTo(sb, fs0, own0, fs, own, i, off, src, tot)
    requires 0 < m <= |src| - tot && m <= BSIZE - (off + tot) % BSIZE
    requires Mapped(sb, fs, own, f, own', i, (off + tot) / BSIZE, addr)
    requires Owned(sb, g, own')
    requires g.blk == f.blk[addr := Patch(f.blk[addr], (off + tot) % BSIZE, src[tot..tot + m])]
    requires forall i', k | IsSlot(sb, i', k) :: Slot(sb, g, i', k) == Slot(sb, f, i', k)
    ensures BytesUpTo(sb, fs0, g, i, off, src, tot + m)
  {
    assert off + |src| <= MAXFILE * BSIZE && forall i' | 0 <= i' < sb.ninodes ::
      0 <= fs0.ino[i'].size <= MAXFILE * BSIZE;
    hide Slot, ByteAt, Mapped, WroteUpTo, Owned, Expected;
    forall i', o | 0 <= i' < sb.ninodes &&
      0 <= o < (if i' == i then Max(fs0.ino[i].size, off + tot + m) else fs0.ino[i'].size)
      ensures ByteAt(sb, g, i', o) == Expected(sb, fs0, i, off, src, tot + m, i', o)
    {
      WriteStepByte(sb, fs0, own0, fs, own, i, off, src, tot, f, own', addr, m, g, i', o);
    }
  }

  /** A byte that was there before has a block. */
  lemma OldByte(sb: Super, fs0: Fs, own0: seq<Owner>, fs: Fs, own: seq<Owner>, i: int, off: int, src: seq<int>,
                tot: int, i': int, o: int)
    requires WroteUpTo(sb, fs0, own0, fs, own, i, off, src, tot)
    requires 0 <= i' < sb.ninodes && 0 <= o < (if i' == i then Max(fs0.ino[i].size, off + tot) else fs0.ino[i'].size)
    ensures o < MAXFILE * BSIZE && Slot(sb, fs, i', DataSlot(o / BSIZE)) != 0
    ensures ByteAt(sb, fs, i', o) == Expected(sb, fs0, i, off, src, tot, i', o)
  {
  }

  /** A write that does not grow the file has not changed its inode. */
  lemma SameAddrs(sb: Super, fs0: Fs, own0: seq<Owner>, fs: Fs, own: seq<Owner>, i: int, off: int, src: seq<int>)
    requires WroteUpTo(sb, fs0, own0, fs, own, i, off, src, |src|) && off + |src| <= fs0.ino[i].size
    ensures fs.ino == fs0.ino
  {
    hide Word, ByteAt;
    forall k | 0 <= k <= NDIRECT
      ensures fs.ino[i].addrs[k] == fs0.ino[i].addrs[k]
    {
      assert IsSlot(sb, i, k) && Slot(sb, fs, i, k) == fs.ino[i].addrs[k] && Slot(sb, fs0, i, k) == fs0.ino[i].addrs[k];
      if k < NDIRECT {
        assert k == DataSlot(k);
        assert Dense(sb, fs0, i, NBlocks(fs0.ino[i].size));
      }
    }
    assert fs.ino[i] == fs0.ino[i];
  }

  // ----- what a write logs, exactly -----

  /** The blocks that hold the first tot bytes from off on. */
  ghost function DataOf(sb: Super, fs: Fs, i: int, off: int, tot: int): set<int>
    requires Shape(sb, fs) && 0 <= i < sb.ninodes
  {
    set bn | off / BSIZE <= bn < off / BSIZE + Touched(off, tot) && 0 <= bn < MAXFILE :: Slot(sb, fs, i, DataSlot(bn))
  }

  /** After tot bytes: the blocks allocated are the ones that were missing, and what has been logged
      since `before` is the data blocks and what allocating took. */
  ghost predicate Books(sb: Super, size: int, own0: seq<Owner>, before: set<int>, fs: Fs, own: seq<Owner>,
                        logged: set<int>, i: int, off: int, tot: int) {
    && Shape(sb, fs) && 0 <= i < sb.ninodes
    && Allocated(sb, own0, own, {}, AllocLog(sb, own0, own, fs.ino[i].addrs[NDIRECT]), fs.ino[i].addrs[NDIRECT], i,
                 Fresh(size, off + tot))
    && logged == before + DataOf(sb, fs, i, off, tot) + AllocLog(sb, own0, own, fs.ino[i].addrs[NDIRECT])
  }

  lemma BooksOpen(sb: Super, fs: Fs, own: seq<Owner>, before: set<int>, i: int, off: int)
    requires Shape(sb, fs) && 0 <= i < sb.ninodes && 0 <= off <= fs.ino[i].size
    ensures Books(sb, fs.ino[i].size, own, before, fs, own, before, i, off, 0)
  {
    hide Slot;
    NothingNew(sb, own, fs.ino[i].addrs[NDIRECT]);
    assert DataOf(sb, fs, i, off, 0) == {};
    assert Fresh(fs.ino[i].size, off) == 0;
  }

  /** bmap and the data written after it leave the other data slots alone. */
  lemma MappedData(sb: Super, fs: Fs, own: seq<Owner>, f: Fs, own': seq<Owner>, g: Fs, i: int, bn: int, addr: int)
    requires Mapped(sb, fs, own, f, own', i, bn, addr) && SameSlots(sb, f, g)
    ensures Shape(sb, fs) && Shape(sb, g) && 0 <= i < sb.ninodes && 0 <= bn < MAXFILE
    ensures Slot(sb, g, i, DataSlot(bn)) == addr
    ensures forall b | 0 <= b < MAXFILE && b != bn :: Slot(sb, g, i, DataSlot(b)) == Slot(sb, fs, i, DataSlot(b))
  {
    hide Slot;
    assert forall b | 0 <= b < MAXFILE :: IsSlot(sb, i, DataSlot(b));
  }

  lemma DataNext(sb: Super, fs: Fs, own: seq<Owner>, f: Fs, own': seq<Owner>, g: Fs, i: int, off: int, tot: int, m: int,
                 addr: int)
    requires 0 <= off && 0 <= tot && 0 < m <= BSIZE - (off + tot) % BSIZE && (0 < tot ==> (off + tot) % BSIZE == 0)
    requires Mapped(sb, fs, own, f, own', i, (off + tot) / BSIZE, addr) && SameSlots(sb, f, g)
    ensures DataOf(sb, g, i, off, tot + m) == DataOf(sb, fs, i, off, tot) + {addr}
  {
    hide Slot, Mapped, Touched, SameSlots;
    var bn := (off + tot) / BSIZE;
    OneMore(off, tot, m);
    MappedData(sb, fs, own, f, own', g, i, bn, addr);
    forall x | x in DataOf(sb, fs, i, off, tot) + {addr}
      ensures x in DataOf(sb, g, i, off, tot + m)
    {
      if x == addr {
        assert Slot(sb, g, i, DataSlot(bn)) == x;
      } else {
        var b :| off / BSIZE <= b < bn && 0 <= b < MAXFILE && Slot(sb, fs, i, DataSlot(b)) == x;
        assert Slot(sb, g, i, DataSlot(b)) == x;
      }
    }
  }

  lemma OneMore(off: int, tot: int, m: int)
    requires 0 <= off && 0 <= tot && 0 < m <= BSIZE - (off + tot) % BSIZE && (0 < tot ==> (off + tot) % BSIZE == 0)
    ensures Touched(off, tot + m) == Touched(off, tot) + 1 && off / BSIZE + Touched(off, tot) == (off + tot) / BSIZE
  {
  }

  /** What one more block costs. */
  lemma StepCost(sb: Super, size: int, fs: Fs, i: int, off: int, tot: int, m: int)
    requires Shape(sb, fs) && 0 <= i < sb.ninodes && 0 <= off <= size && 0 <= tot && (off + tot) / BSIZE < MAXFILE
    requires 0 < m <= BSIZE - (off + tot) % BSIZE && (0 < tot ==> (off + tot) % BSIZE == 0)
    requires Dense(sb, fs, i, Reach(size, off + tot))
    ensures MapCost(sb, fs, i, (off + tot) / BSIZE) + Fresh(size, off + tot) == Fresh(size, off + tot + m)
  {
    hide Slot;
    OneMoreBlock(size, off, tot, m);
  }

  lemma FreshGrows(size: int, a: int, b: int)
    ensures a <= b ==> Fresh(size, a) <= Fresh(size, b)
  {
  }

  /** One more block, in the books. */
  lemma BooksNext(sb: Super, size: int, own0: seq<Owner>, before: set<int>, fs: Fs, own: seq<Owner>, logged: set<int>,
                  f: Fs, own': seq<Owner>, g: Fs, mid: set<int>, logged': set<int>, i: int, off: int, tot: int, m: int,
                    addr: int)
    requires Books(sb, size, own0, before, fs, own, logged, i, off, tot)
    requires 0 <= off <= size && 0 <= tot && 0 < m <= BSIZE - (off + tot) % BSIZE
    requires 0 < tot ==> (off + tot) % BSIZE == 0
    requires Mapped(sb, fs, own, f, own', i, (off + tot) / BSIZE, addr) && SameSlots(sb, f, g) && g.ino == f.ino
    requires Dense(sb, fs, i, Reach(size, off + tot))
    requires Allocated(sb, own, own', logged, mid, g.ino[i].addrs[NDIRECT], i, MapCost(sb, fs, i, (off + tot) / BSIZE))
    requires logged' == mid + {addr}
    ensures Books(sb, size, own0, before, g, own', logged', i, off, tot + m)
  {
    hide Slot, MapCost, DataOf, AllocLog, Dense, NewBlocks, Grew, Fresh;
    var ind1, ind := fs.ino[i].addrs[NDIRECT], g.ino[i].addrs[NDIRECT];
    StepCost(sb, size, fs, i, off, tot, m);
    DataNext(sb, fs, own, f, own', g, i, off, tot, m, addr);
    var n1, n2 := AllocLog(sb, own0, own, ind1), AllocLog(sb, own, own', ind);
    AllocatedMore(sb, own0, own, own', {}, n1, n1 + n2, ind1, ind, i, Fresh(size, off + tot),
      MapCost(sb, fs, i, (off + tot) / BSIZE));
    assert n1 + n2 == AllocLog(sb, own0, own', ind);
  }

  /** The allocations that a panic for want of blocks leaves undone. */
  lemma OutOfBlocks(sb: Super, size: int, own0: seq<Owner>, before: set<int>, fs: Fs, own: seq<Owner>, logged: set<int>,
                    f: Fs, own': seq<Owner>, i: int, off: int, tot: int, m: int, n: int)
    requires Books(sb, size, own0, before, fs, own, logged, i, off, tot) && Dense(sb, fs, i, Reach(size, off + tot))
    requires 0 <= off <= size && 0 <= tot && (off + tot) / BSIZE < MAXFILE && tot + m <= n
    requires 0 < m <= BSIZE - (off + tot) % BSIZE && (0 < tot ==> (off + tot) % BSIZE == 0)
    requires Owned(sb, f, own') && (forall x | 0 <= x < sb.size :: f.bits[x]) && Grew(own, own')
    requires |NewBlocks(own, own')| < MapCost(sb, fs, i, (off + tot) / BSIZE)
    ensures |FreeBlocks(own0)| < Fresh(size, off + n)
  {
    hide Slot, MapCost, AllocLog, Dense, Fresh, DataOf;
    StepCost(sb, size, fs, i, off, tot, m);
    FreshGrows(size, off + tot + m, off + n);
    NewAdds(own0, own, own');
    AllTaken(own0, own');
  }

  /** The end of writei: size and inode written. */
  ghost predicate Finished(fs0: Fs, fs: Fs, f: Fs, i: int, end: int)
    requires 0 <= i < |fs0.ino| && i < |fs.ino| && i < |fs.dino|
  {
    f == if end > fs0.ino[i].size
         then var n := fs.ino[i].(size := end); fs.(ino := fs.ino[i := n], dino := fs.dino[i := n])
         else fs
  }

  lemma FinishedSlots(sb: Super, fs: Fs, f: Fs)
    requires Shape(sb, fs) && f.blk == fs.blk && f.bits == fs.bits && |f.ino| == |fs.ino| && |f.dino| == |fs.dino|
    requires forall i | 0 <= i < |fs.ino| :: f.ino[i].addrs == fs.ino[i].addrs
    ensures Shape(sb, f) && forall i, k | IsSlot(sb, i, k) :: Slot(sb, f, i, k) == Slot(sb, fs, i, k)
  {
  }

  /** After the size and the inode are written the invariant is back in force. */
  lemma WriteDone(sb: Super, fs0: Fs, own0: seq<Owner>, fs: Fs, own: seq<Owner>, i: int, off: int, src: seq<int>, f: Fs)
    requires WroteUpTo(sb, fs0, own0, fs, own, i, off, src, |src|) && Finished(fs0, fs, f, i, off + |src|)
    ensures Inv(sb, f, own)
  {
    hide Slot, ByteAt;
    FinishedSlots(sb, fs, f);
    SameSlotsOwned(sb, fs, f, own);
    if off + |src| <= fs0.ino[i].size { SameAddrs(sb, fs0, own0, fs, own, i, off, src); }
    forall i' | 0 <= i' < sb.ninodes
      ensures 0 <= f.ino[i'].size <= MAXFILE * BSIZE && Dense(sb, f, i', NBlocks(f.ino[i'].size))
    {
      if i' == i {
        DenseSame(sb, fs, f, i, Reach(fs0.ino[i].size, off + |src|));
      } else {
        DenseSame(sb, fs0, f, i', NBlocks(f.ino[i'].size));
      }
    }
  }

  lemma DenseSame(sb: Super, fs: Fs, f: Fs, i: int, n: int)
    requires Shape(sb, fs) && Shape(sb, f) && 0 <= i < sb.ninodes && Dense(sb, fs, i, n)
    requires forall k | IsSlot(sb, i, k) :: Slot(sb, f, i, k) == Slot(sb, fs, i, k)
    ensures Dense(sb, f, i, n)
  {
    hide Slot;
    IndirectIsSlot(sb, fs, i);
    IndirectIsSlot(sb, f, i);
    forall x | 0 <= x < MAXFILE
      ensures Slot(sb, f, i, DataSlot(x)) == Slot(sb, fs, i, DataSlot(x))
    {
      assert IsSlot(sb, i, DataSlot(x));
    }
  }

  lemma FinishedBytes(sb: Super, fs: Fs, f: Fs, i: int, o: int)
    requires Shape(sb, fs) && Shape(sb, f) && f.blk == fs.blk && 0 <= i < sb.ninodes && 0 <= o < MAXFILE * BSIZE
    requires forall i, k | IsSlot(sb, i, k) :: Slot(sb, f, i, k) == Slot(sb, fs, i, k)
    ensures ByteAt(sb, f, i, o) == ByteAt(sb, fs, i, o)
  {
  }

  /** From bytes to whole contents. */
  lemma ContentsAre(sb: Super, fs0: Fs, f: Fs, i: int, off: int, src: seq<int>)
    requires Shape(sb, fs0) && Shape(sb, f) && 0 <= i < sb.ninodes
    requires forall i' | 0 <= i' < sb.ninodes :: 0 <= fs0.ino[i'].size <= MAXFILE * BSIZE
    requires 0 <= off <= fs0.ino[i].size && off + |src| <= MAXFILE * BSIZE
    requires BytesUpTo(sb, fs0, f, i, off, src, |src|) && 0 <= f.ino[i].size <= MAXFILE * BSIZE
    requires forall i' | 0 <= i' < sb.ninodes ::
      f.ino[i'].size == if i' == i then Max(fs0.ino[i].size, off + |src|) else fs0.ino[i'].size
    ensures Contents(sb, f, i) == Splice(Contents(sb, fs0, i), off, src)
    ensures forall i' | 0 <= i' < sb.ninodes && i' != i :: Contents(sb, f, i') == Contents(sb, fs0, i')
  {
    hide ByteAt;
  }

  /** The file holds what was written, spliced into what it held; no other file changed. */
  lemma WriteContents(sb: Super, fs0: Fs, own0: seq<Owner>, fs: Fs, own: seq<Owner>, i: int, off: int, src: seq<int>,
                      f: Fs)
    requires WroteUpTo(sb, fs0, own0, fs, own, i, off, src, |src|) && Finished(fs0, fs, f, i, off + |src|)
    ensures Inv(sb, f, own) && Contents(sb, f, i) == Splice(Contents(sb, fs0, i), off, src)
    ensures forall i' | 0 <= i' < sb.ninodes && i' != i :: Contents(sb, f, i') == Contents(sb, fs0, i')
  {
    WriteDone(sb, fs0, own0, fs, own, i, off, src, f);
    FinishedSlots(sb, fs, f);
    hide Slot, ByteAt, Contents, Splice, Owned, Expected;
    forall i', o | 0 <= i' < sb.ninodes && 0 <= o < f.ino[i'].size
      ensures ByteAt(sb, f, i', o) == Expected(sb, fs0, i, off, src, |src|, i', o)
    {
      FinishedBytes(sb, fs, f, i', o);
    }
    ContentsAre(sb, fs0, f, i, off, src);
  }

  // ----- itrunc -----

  /** Only blocks of inode t have changed hands, and only to become free. */
  ghost predicate Released(own0: seq<Owner>, own: seq<Owner>, t: int) {
    && |own| == |own0|
    && forall x | 0 <= x < |own| :: own[x] == own0[x] || (own0[x].Own? && own0[x].i == t && own[x] == Free)
  }

  /** Nothing but inode t and the bitmap differs from fs0. */
  ghost predicate TruncFrame(fs0: Fs, fs: Fs, t: int) {
    && fs.blk == fs0.blk && fs.dino == fs0.dino && 0 <= t < |fs0.ino| == |fs.ino|
    && fs.ino == fs0.ino[t := fs.ino[t]]
  }

  lemma SameFile(sb: Super, fs: Fs, f: Fs, i: int)
    requires Shape(sb, fs) && Shape(sb, f) && f.blk == fs.blk && 0 <= i < sb.ninodes && f.ino[i] == fs.ino[i]
    ensures forall k | IsSlot(sb, i, k) :: Slot(sb, f, i, k) == Slot(sb, fs, i, k)
    ensures 0 <= fs.ino[i].size <= MAXFILE * BSIZE ==> Contents(sb, f, i) == Contents(sb, fs, i)
  {
  }

  /** After itrunc: the invariant, an empty file, every other file as it was, and exactly the
      blocks of the file free. */
  lemma TruncDone(sb: Super, fs0: Fs, own0: seq<Owner>, fs: Fs, own: seq<Owner>, t: int, f: Fs)
    requires Inv(sb, fs0, own0) && Owned(sb, fs, own) && Released(own0, own, t) && TruncFrame(fs0, fs, t)
    requires forall k | 0 <= k <= NDIRECT :: fs.ino[t].addrs[k] == 0
    requires var n := fs.ino[t].(size := 0); f == fs.(ino := fs.ino[t := n], dino := fs.dino[t := n])
    ensures Inv(sb, f, own) && Contents(sb, f, t) == []
    ensures forall i | 0 <= i < sb.ninodes && i != t :: Contents(sb, f, i) == Contents(sb, fs0, i)
    ensures forall x | 0 <= x < sb.size :: own[x] == if own0[x].Own? && own0[x].i == t then Free else own0[x]
  {
    hide Word, ByteAt, Contents;
    FinishedSlots(sb, fs, f);
    SameSlotsOwned(sb, fs, f, own);
    EmptySlots(sb, fs, own, t);
    forall i | 0 <= i < sb.ninodes
      ensures 0 <= f.ino[i].size <= MAXFILE * BSIZE && Dense(sb, f, i, NBlocks(f.ino[i].size))
    {
      TruncDense(sb, fs0, f, i, t);
    }
    forall i | 0 <= i < sb.ninodes && i != t
      ensures Contents(sb, f, i) == Contents(sb, fs0, i)
    {
      SameFile(sb, fs0, f, i);
    }
    EmptyContents(sb, f, t);
  }

  lemma EmptyContents(sb: Super, f: Fs, t: int)
    requires Shape(sb, f) && 0 <= t < sb.ninodes && f.ino[t].size == 0
    ensures Contents(sb, f, t) == []
  {
  }

  lemma EmptySlots(sb: Super, fs: Fs, own: seq<Owner>, t: int)
    requires Owned(sb, fs, own) && 0 <= t < sb.ninodes && forall k | 0 <= k <= NDIRECT :: fs.ino[t].addrs[k] == 0
    ensures forall x | 0 <= x < sb.size :: !(own[x].Own? && own[x].i == t)
  {
  }

  lemma TruncDense(sb: Super, fs0: Fs, f: Fs, i: int, t: int)
    requires Shape(sb, fs0) && Shape(sb, f) && f.blk == fs0.blk && 0 <= i < sb.ninodes && 0 <= t < sb.ninodes
    requires 0 <= fs0.ino[i].size <= MAXFILE * BSIZE && Dense(sb, fs0, i, NBlocks(fs0.ino[i].size))
    requires i != t ==> f.ino[i] == fs0.ino[i]
    requires f.ino[t].size == 0 && forall k | 0 <= k <= NDIRECT :: f.ino[t].addrs[k] == 0
    ensures 0 <= f.ino[i].size <= MAXFILE * BSIZE && Dense(sb, f, i, NBlocks(f.ino[i].size))
  {
  }
}
