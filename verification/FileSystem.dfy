/** The functions of fs.c and file.c that allocate, map, read, write and free file blocks, on
    state that they update in place.  `logged` collects the distinct blocks handed to log_write
    since the last begin_op. */
module FileSystem {
  import opened FileBlocks
  import opened FileBudget
  import opened FileWrites
  import opened Params
  import opened SetFacts

  /** `fs` is fs0 after writing the first k bytes of src at off into inode i. */
  ghost predicate Written(sb: Super, fs0: Fs, own0: seq<Owner>, fs: Fs, own: seq<Owner>, i: int, src: seq<int>,
                          off: int, k: int) {
    && Inv(sb, fs0, own0) && Inv(sb, fs, own) && 0 <= i < sb.ninodes && 0 <= k <= |src|
    && (k > 0 ==> 0 <= off <= fs0.ino[i].size && off + k <= fs.ino[i].size)
    && Contents(sb, fs, i) == (if k == 0 then Contents(sb, fs0, i) else Splice(Contents(sb, fs0, i), off, src[..k]))
    && (forall i' | 0 <= i' < sb.ninodes && i' != i :: Contents(sb, fs, i') == Contents(sb, fs0, i'))
    && (forall x | 0 <= x < sb.size :: own[x] == Reserved <==> own0[x] == Reserved)
  }

  /** A file of size0 has grown to size by writing `done` bytes from off on, if off lies in it, and the
      blocks allocated are exactly those that were missing. */
  ghost predicate Spent(own0: seq<Owner>, size0: int, own: seq<Owner>, size: int, off: int, done: int) {
    off <= size0 ==>
      && Grew(own0, own) && |NewBlocks(own0, own)| == Fresh(size0, off + done)
      && size == Max(size0, off + done)
  }

  /** Where filewrite of n bytes at off ends, on a file of `size` bytes with `free` blocks left: it has
      written `done` bytes in so many operations, or stopped for want of blocks.  It writes all bytes, or
      the whole chunks that fit into the largest file. */
  ghost predicate Ended(size: int, free: int, off: int, n: int, stop: bool, done: int, ops: int) {
    if n <= 0 then !stop && done == 0 && ops == 0
    else if off > size then !stop && done == 0 && ops == 1
    else
      var fits := off + n <= MAXFILE * BSIZE;
      var end := if fits then n else (MAXFILE * BSIZE - off) / CHUNK * CHUNK;
      && (stop <==> free < Fresh(size, off + end))
      && (!stop ==> done == end && ops == if fits then (n + CHUNK - 1) / CHUNK else end / CHUNK + 1)
  }

  class FileSys {
    const sb: Super
    var bits: seq<bool>
    var blk: seq<Blk>
    var ino: seq<Inode>
    var dino: seq<Inode>
    ghost var own: seq<Owner>
    ghost var logged: set<int>

    ghost function Abs(): Fs reads this { Fs(bits, blk, ino, dino) }

    ghost predicate Valid() reads this { Inv(sb, Abs(), own) }

    /** A new file system: metadata blocks in use, every other block free, every inode empty. */
    constructor (sb: Super)
      requires ValidSuper(sb)
      ensures Valid() && this.sb == sb
      ensures forall x | 0 <= x < sb.size :: own[x] == if x < sb.data then Reserved else Free
    {
      this.sb := sb;
      bits := seq(sb.size, x => x < sb.data);
      blk := seq(sb.size, _ => Zero());
      var none := Inode(0, seq(NDIRECT + 1, _ => 0));
      ino := seq(sb.ninodes, _ => none);
      dino := seq(sb.ninodes, _ => none);
      own := seq(sb.size, x => if x < sb.data then Reserved else Free);
      logged := {};
      new;
      ZeroWords(0);
    }

    ghost predicate Full() reads this { |bits| == sb.size && forall x | 0 <= x < sb.size :: bits[x] }

    /** balloc: the lowest free block, zeroed; false is the panic, when there is none. */
    method Balloc() returns (ok: bool, b: int)
      requires Shape(sb, Abs())
      modifies this`bits, this`blk, this`logged
      ensures ok ==> 0 <= b < sb.size && !old(bits)[b] && (forall x | 0 <= x < b :: old(bits)[x])
      ensures ok ==> Abs() == Claim(old(Abs()), b) && logged == old(logged) + {BBlock(sb, b), b}
      ensures ok ==> bits == old(bits)[b := true] && blk == old(blk)[b := blk[b]]
      ensures ok ==> |blk[b].bytes| == BSIZE && forall j | 0 <= j < BSIZE :: blk[b].bytes[j] == 0
      ensures !ok ==> Abs() == old(Abs()) && logged == old(logged) && Full()
    {
      var base := 0;
      while base < sb.size
        invariant 0 <= base && base % BPB == 0
        invariant forall x | 0 <= x < base && x < sb.size :: bits[x]
        invariant Abs() == old(Abs()) && logged == old(logged)
      {
        var bi := 0;
        while bi < BPB && base + bi < sb.size
          invariant 0 <= bi <= BPB && forall x | 0 <= x < base + bi && x < sb.size :: bits[x]
          invariant Abs() == old(Abs()) && logged == old(logged)
        {
          if !bits[base + bi] {
            bits := bits[base + bi := true];
            logged := logged + {BBlock(sb, base + bi)};
            blk := blk[base + bi := Zero()];
            logged := logged + {base + bi};
            return true, base + bi;
          }
          bi := bi + 1;
        }
        base := base + BPB;
      }
      return false, 0;
    }

    /** bfree; false is the panic "freeing free block". */
    method Bfree(b: int) returns (ok: bool)
      requires 0 <= b < |bits|
      modifies this`bits, this`logged
      ensures ok <==> old(bits)[b]
      ensures bits == old(bits)[b := false] && logged == old(logged) + if ok then {BBlock(sb, b)} else {}
    {
      if !bits[b] { return false; }
      bits := bits[b := false];
      logged := logged + {BBlock(sb, b)};
      return true;
    }

    method Iupdate(i: int)
      requires 0 <= i < |ino| && i < |dino|
      modifies this`dino, this`logged
      ensures dino == old(dino)[i := ino[i]] && logged == old(logged) + {IBlock(sb, i)}
    {
      dino := dino[i := ino[i]];
      logged := logged + {IBlock(sb, i)};
    }

    /** The indirect block of inode i, 0 if there is none. */
    ghost function Ind(i: int): int
      reads this
    {
      if 0 <= i < |ino| && |ino[i].addrs| == NDIRECT + 1 then ino[i].addrs[NDIRECT] else 0
    }

    /** balloc into slot (i, k). */
    method Give(i: int, k: int) returns (ok: bool, b: int)
      requires Owned(sb, Abs(), own) && IsSlot(sb, i, k) && Slot(sb, Abs(), i, k) == 0
      requires NDIRECT < k ==> ino[i].addrs[NDIRECT] != 0
      modifies this`bits, this`blk, this`ino, this`own, this`logged
      ensures ok ==> CanGive(sb, old(Abs()), old(own), i, k, b) && Shape(sb, Claim(old(Abs()), b))
      ensures ok ==> Abs() == Point(sb, Claim(old(Abs()), b), i, k, b) && own == old(own)[b := Own(i, k)]
      ensures ok && k <= NDIRECT ==> logged == old(logged) + {BBlock(sb, b), b}
      ensures ok && NDIRECT < k ==> logged == old(logged) + {BBlock(sb, b), b, old(ino)[i].addrs[NDIRECT]}
      ensures !ok ==> Full() && Abs() == old(Abs()) && own == old(own)
    {
      hide Slot, Word, PutWord;
      ok, b := Balloc();
      if !ok { return; }
      ClaimShape(sb, old(Abs()), b);
      if k <= NDIRECT {
        ino := ino[i := SetAddr(ino[i], k, b)];
      } else {
        var ind := ino[i].addrs[NDIRECT];
        blk := blk[ind := PutWord(blk[ind], k - NDIRECT - 1, b)];
        logged := logged + {ind};
      }
      own := own[b := Own(i, k)];
    }

    /** bmap; false is one of its panics.  `bms` are the bitmap blocks it logged. */
    method Bmap(i: int, bn: int) returns (ok: bool, addr: int, ghost bms: set<int>)
      requires Owned(sb, Abs(), own) && 0 <= i < sb.ninodes && 0 <= bn
      modifies this`bits, this`blk, this`ino, this`own, this`logged
      ensures ok ==> bn < MAXFILE && Mapped(sb, old(Abs()), old(own), Abs(), own, i, bn, addr)
      ensures ok ==> |bms| <= MapCost(sb, old(Abs()), i, bn)
      ensures ok ==> logged <= old(logged) + bms + {addr} + (if bn < NDIRECT then {} else {ino[i].addrs[NDIRECT]})
      ensures ok && MapCost(sb, old(Abs()), i, bn) == 0
        ==> Abs() == old(Abs()) && own == old(own) && logged == old(logged)
      ensures ok ==> Allocated(sb, old(own), own, old(logged), logged, Ind(i), i, MapCost(sb, old(Abs()), i, bn))
      ensures !ok ==> bn >= MAXFILE || (Full() && MapCost(sb, old(Abs()), i, bn) > 0)
      ensures !ok && bn < MAXFILE ==> Owned(sb, Abs(), own) && Grew(old(own), own)
      ensures !ok && bn < MAXFILE ==> |NewBlocks(old(own), own)| < MapCost(sb, old(Abs()), i, bn)
    {
      hide Slot, Mapped, Point, Claim, CanGive, Allocated, AllocLog, Grew, NewBlocks, MapCost, Owned;
      OwnedShape(own);
      bms := {};
      NothingNew(sb, own, 0);
      if bn < NDIRECT {
        ok, addr, bms := MapSlot(i, bn);
        return;
      }
      if bn >= MAXFILE { return false, 0, {}; }
      IndirectIsSlot(sb, Abs(), i);
      if ino[i].addrs[NDIRECT] == 0 {
        ghost var fs, own0 := Abs(), own;
        var ind;
        ok, ind := Give(i, NDIRECT);
        NoEntries(fs, i, bn);
        if !ok { return false, 0, {}; }
        FirstLevel(fs, own0, old(logged), i, ind, bn);
        ghost var own1, mid := own, logged;
        ghost var more;
        ok, addr, more := MapSlot(i, bn);
        if ok {
          IndirectThenMapped(sb, fs, own0, i, ind, Abs(), own, bn, addr);
          bms := more + {BBlock(sb, ind)};
          KeptIndirect(fs, own0, i, ind, bn, addr);
          AllocatedMore(sb, own0, own1, own, old(logged), mid, logged, ind, Ind(i), i, 1, 1);
        }
      } else {
        ok, addr, bms := MapSlot(i, bn);
      }
    }

    /** With the indirect block in place, one block has been allocated and one is missing. */
    lemma FirstLevel(fs: Fs, own0: seq<Owner>, before: set<int>, i: int, ind: int, bn: int)
      requires CanGive(sb, fs, own0, i, NDIRECT, ind) && Shape(sb, Claim(fs, ind)) && NDIRECT <= bn < MAXFILE
      requires Abs() == Point(sb, Claim(fs, ind), i, NDIRECT, ind) && own == own0[ind := Own(i, NDIRECT)]
      requires logged == before + {BBlock(sb, ind), ind}
      ensures Owned(sb, Abs(), own) && Shape(sb, Abs()) && ino[i].addrs[NDIRECT] == ind != 0
      ensures MapCost(sb, Abs(), i, bn) == 1
      ensures Allocated(sb, own0, own, before, logged, ind, i, 1) && Grew(own0, own) && |NewBlocks(own0, own)| == 1
    {
      hide Slot, Point, Claim, CanGive, Allocated, Grew, NewBlocks, MapCost, Owned;
      GivesFree(sb, fs, own0, i, NDIRECT, ind);
      GaveIndirect(fs, own0, i, ind);
      GaveNoEntries(fs, own0, i, ind, bn);
      AllocatedOne(sb, own0, before, logged, ind, i, NDIRECT, ind);
      OneNew(sb, own0, ind, Own(i, NDIRECT), ind);
    }

    lemma NoEntries(fs: Fs, i: int, bn: int)
      requires Shape(sb, fs) && 0 <= i < sb.ninodes && NDIRECT <= bn < MAXFILE && fs.ino[i].addrs[NDIRECT] == 0
      ensures MapCost(sb, fs, i, bn) == 2
    {
    }

    /** The new indirect block is empty. */
    lemma GaveNoEntries(fs: Fs, own0: seq<Owner>, i: int, ind: int, bn: int)
      requires CanGive(sb, fs, own0, i, NDIRECT, ind) && Shape(sb, Claim(fs, ind)) && NDIRECT <= bn < MAXFILE
      requires Abs() == Point(sb, Claim(fs, ind), i, NDIRECT, ind) && Shape(sb, Abs())
      ensures 0 <= i < |ino| && |ino[i].addrs| == NDIRECT + 1 && ind != 0 && ino[i].addrs[NDIRECT] == ind
      ensures MapCost(sb, Abs(), i, bn) == 1
    {
      GiveKeepsOwned(sb, fs, own0, i, NDIRECT, ind);
      assert IsSlot(sb, i, DataSlot(bn));
    }

    lemma GaveIndirect(fs: Fs, own0: seq<Owner>, i: int, ind: int)
      requires CanGive(sb, fs, own0, i, NDIRECT, ind) && Shape(sb, Claim(fs, ind))
      requires Abs() == Point(sb, Claim(fs, ind), i, NDIRECT, ind) && own == own0[ind := Own(i, NDIRECT)]
      ensures Owned(sb, Abs(), own) && Shape(sb, Abs()) && ino[i].addrs[NDIRECT] == ind && ind != 0
    {
      hide Slot;
      GiveKeepsOwned(sb, fs, own0, i, NDIRECT, ind);
    }

    lemma KeptIndirect(fs: Fs, own0: seq<Owner>, i: int, ind: int, bn: int, addr: int)
      requires CanGive(sb, fs, own0, i, NDIRECT, ind) && Shape(sb, Claim(fs, ind))
      requires Shape(sb, Point(sb, Claim(fs, ind), i, NDIRECT, ind))
      requires Mapped(sb, Point(sb, Claim(fs, ind), i, NDIRECT, ind), own0[ind := Own(i, NDIRECT)],
                      Abs(), own, i, bn, addr)
      ensures Shape(sb, Abs()) && ind != 0 && ino[i].addrs[NDIRECT] == ind
    {
    }

    /** The last level of bmap: the slot itself, allocated if it is empty. */
    method MapSlot(i: int, bn: int) returns (ok: bool, addr: int, ghost bms: set<int>)
      requires Owned(sb, Abs(), own) && 0 <= i < sb.ninodes && 0 <= bn < MAXFILE
      requires NDIRECT <= bn ==> ino[i].addrs[NDIRECT] != 0
      modifies this`bits, this`blk, this`ino, this`own, this`logged
      ensures ok ==> Mapped(sb, old(Abs()), old(own), Abs(), own, i, bn, addr)
      ensures ok ==> |bms| <= MapCost(sb, old(Abs()), i, bn) <= 1
      ensures ok ==> logged <= old(logged) + bms + {addr} + (if bn < NDIRECT then {} else {old(ino)[i].addrs[NDIRECT]})
      ensures ok && NDIRECT <= bn ==> ino[i].addrs[NDIRECT] == old(ino)[i].addrs[NDIRECT]
      ensures ok && MapCost(sb, old(Abs()), i, bn) == 0
        ==> Abs() == old(Abs()) && own == old(own) && logged == old(logged)
      ensures ok ==> Allocated(sb, old(own), own, old(logged), logged, Ind(i), i, MapCost(sb, old(Abs()), i, bn))
      ensures !ok ==> Full() && MapCost(sb, old(Abs()), i, bn) > 0 && Abs() == old(Abs()) && own == old(own)
    {
      hide Slot, Mapped, Point, Claim, CanGive, Allocated, Owned, MapCost;
      OwnedShape(own);
      bms := {};
      ok := true;
      addr := ReadSlot(i, bn);
      assert IsSlot(sb, i, DataSlot(bn));
      if addr == 0 {
        ghost var fs, own0 := Abs(), own;
        EmptySlotCosts(sb, fs, i, bn);
        ok, addr := Give(i, DataSlot(bn));
        if ok {
          bms := {BBlock(sb, addr)};
          GaveSlot(fs, own0, old(logged), i, bn, addr);
        }
      } else {
        AlreadyMapped(Abs(), own, i, bn);
        AllocatedNone(sb, own, logged, Ind(i), i);
      }
    }

    /** After the allocation: the slot is mapped, at the cost of one block. */
    lemma GaveSlot(fs: Fs, own0: seq<Owner>, before: set<int>, i: int, bn: int, addr: int)
      requires 0 <= bn < MAXFILE && CanGive(sb, fs, own0, i, DataSlot(bn), addr) && Shape(sb, Claim(fs, addr))
      requires Abs() == Point(sb, Claim(fs, addr), i, DataSlot(bn), addr) && own == own0[addr := Own(i, DataSlot(bn))]
      requires logged == before + if bn < NDIRECT then {BBlock(sb, addr), addr}
                                  else {BBlock(sb, addr), addr, fs.ino[i].addrs[NDIRECT]}
      ensures Mapped(sb, fs, own0, Abs(), own, i, bn, addr) && MapCost(sb, fs, i, bn) == 1
      ensures NDIRECT <= bn ==> ino[i].addrs[NDIRECT] == fs.ino[i].addrs[NDIRECT]
      ensures Allocated(sb, own0, own, before, logged, Ind(i), i, 1)
    {
      hide Slot, Point, CanGive, Mapped, MapCost, Allocated, Owned, Grew, AllocLog, NewBlocks;
      GivesFree(sb, fs, own0, i, DataSlot(bn), addr);
      EmptySlotCosts(sb, fs, i, bn);
      GiveIsMapped(sb, fs, own0, i, bn, addr);
      SameIndirect(fs, own0, i, bn, addr);
      AllocatedOne(sb, own0, before, logged, Ind(i), i, DataSlot(bn), addr);
    }

    lemma SameIndirect(fs: Fs, own0: seq<Owner>, i: int, bn: int, addr: int)
      requires Mapped(sb, fs, own0, Abs(), own, i, bn, addr)
      requires NDIRECT <= bn ==> fs.ino[i].addrs[NDIRECT] != 0
      ensures Shape(sb, fs) && Shape(sb, Abs()) && 0 <= i < sb.ninodes
      ensures NDIRECT <= bn ==> ino[i].addrs[NDIRECT] == fs.ino[i].addrs[NDIRECT]
    {
    }

    lemma AlreadyMapped(fs: Fs, own0: seq<Owner>, i: int, bn: int)
      requires Owned(sb, fs, own0) && 0 <= i < sb.ninodes && 0 <= bn < MAXFILE
      requires Slot(sb, fs, i, DataSlot(bn)) != 0
      ensures Mapped(sb, fs, own0, fs, own0, i, bn, Slot(sb, fs, i, DataSlot(bn)))
      ensures MapCost(sb, fs, i, bn) == 0
    {
    }

    /** ip->addrs[bn], or the entry of the indirect block. */
    method ReadSlot(i: int, bn: int) returns (addr: int)
      requires Shape(sb, Abs()) && 0 <= i < sb.ninodes && 0 <= bn < MAXFILE
      requires NDIRECT <= bn ==> ino[i].addrs[NDIRECT] != 0
      ensures addr == Slot(sb, Abs(), i, DataSlot(bn))
      ensures addr == if bn < NDIRECT then ino[i].addrs[bn] else Word(blk[ino[i].addrs[NDIRECT]], bn - NDIRECT)
    {
      if bn < NDIRECT {
        addr := ino[i].addrs[bn];
      } else {
        addr := Word(blk[ino[i].addrs[NDIRECT]], bn - NDIRECT);
      }
    }

    /** One iteration of readi: m bytes of the file at o, and no change at all. */
    method ReadBlock(i: int, o: int, m: int) returns (s: seq<int>)
      requires Valid() && 0 <= i < |ino| && 0 <= o && 0 < m <= BSIZE - o % BSIZE && o + m <= ino[i].size
      modifies this`bits, this`blk, this`ino, this`own, this`logged
      ensures Abs() == old(Abs()) && own == old(own) && logged == old(logged)
      ensures Shape(sb, Abs()) && i < sb.ninodes && o + m <= MAXFILE * BSIZE && |s| == m
      ensures forall p | o <= p < o + m :: s[p - o] == ByteAt(sb, Abs(), i, p)
    {
      hide Slot, Inv, Mapped, ByteAt;
      ValidFacts(i);
      AllocatedBelow(i, o);
      var ok, addr;
      ghost var bms;
      ok, addr, bms := Bmap(i, o / BSIZE);
      if !ok { assert false; }
      BlockBytes(i, o, addr, m);
      s := blk[addr].bytes[o % BSIZE..o % BSIZE + m];
    }

    /** readi on a regular file: -1, or the bytes of the file from off on, at most n of them.
        It never allocates, whatever bmap could do. */
    method Readi(i: int, off: int, n: int) returns (r: int, dst: seq<int>)
      requires Valid() && 0 <= i < |ino| && 0 <= off < UINT && 0 <= n < UINT
      modifies this`bits, this`blk, this`ino, this`own, this`logged
      ensures Abs() == old(Abs()) && own == old(own) && logged == old(logged)
      ensures r == -1 <==> off > ino[i].size || off + n >= UINT
      ensures r != -1 ==> r == |dst| == (if off + n > ino[i].size then ino[i].size - off else n)
      ensures r != -1 ==> Shape(sb, Abs()) && i < sb.ninodes && 0 <= off + r <= ino[i].size <= MAXFILE * BSIZE
      ensures r != -1 ==> dst == Contents(sb, Abs(), i)[off..off + r]
    {
      hide Slot, Inv, ByteAt, Contents;
      ValidFacts(i);
      dst := [];
      if off > ino[i].size || (off + n) % UINT < off { return -1, []; }
      var want := if (off + n) % UINT > ino[i].size then ino[i].size - off else n;
      var tot, o := 0, off;
      while tot < want
        invariant 0 <= tot <= want && o == off + tot && |dst| == tot
        invariant Abs() == old(Abs()) && own == old(own) && logged == old(logged)
        invariant forall p | off <= p < off + tot :: dst[p - off] == ByteAt(sb, Abs(), i, p)
      {
        var m := if want - tot < BSIZE - o % BSIZE then want - tot else BSIZE - o % BSIZE;
        var s := ReadBlock(i, o, m);
        dst := dst + s;
        tot, o := tot + m, o + m;
      }
      ContentsSlice(i, off, want, dst);
      return want, dst;
    }

    lemma ValidFacts(i: int)
      requires Valid() && 0 <= i < |ino|
      ensures Owned(sb, Abs(), own) && Shape(sb, Abs()) && i < sb.ninodes && dino == ino
      ensures 0 <= ino[i].size <= MAXFILE * BSIZE
    {
    }

    /** Every block index below the size is allocated, so reading it costs nothing. */
    lemma AllocatedBelow(i: int, o: int)
      requires Valid() && 0 <= i < |ino| && 0 <= o < ino[i].size
      ensures Owned(sb, Abs(), own) && i < sb.ninodes && 0 <= o / BSIZE < MAXFILE
      ensures Slot(sb, Abs(), i, DataSlot(o / BSIZE)) != 0 && MapCost(sb, Abs(), i, o / BSIZE) == 0
    {
    }

    lemma BlockBytes(i: int, o: int, addr: int, m: int)
      requires 0 <= o && Mapped(sb, Abs(), own, Abs(), own, i, o / BSIZE, addr)
      requires 0 <= m <= BSIZE - o % BSIZE && o + m <= MAXFILE * BSIZE
      ensures Shape(sb, Abs()) && 0 <= i < sb.ninodes && 0 < addr < sb.size && |blk[addr].bytes| == BSIZE
      ensures forall p | o <= p < o + m :: blk[addr].bytes[o % BSIZE..o % BSIZE + m][p - o] == ByteAt(sb, Abs(), i, p)
    {
    }

    lemma ContentsSlice(i: int, off: int, n: int, dst: seq<int>)
      requires Shape(sb, Abs()) && 0 <= i < sb.ninodes && 0 <= ino[i].size <= MAXFILE * BSIZE
      requires 0 <= off && 0 <= n == |dst| && off + n <= ino[i].size
      requires forall p | off <= p < off + n :: dst[p - off] == ByteAt(sb, Abs(), i, p)
      ensures dst == Contents(sb, Abs(), i)[off..off + n]
    {
    }

    lemma WriteStart(i: int, off: int, src: seq<int>)
      requires Valid() && 0 <= i < |ino| && 0 <= off <= ino[i].size && off + |src| <= MAXFILE * BSIZE
      ensures WroteUpTo(sb, Abs(), own, Abs(), own, i, off, src, 0)
      ensures Touched(off, 0) == 0 && Fresh(ino[i].size, off) == 0
    {
    }

    lemma Progress(fs0: Fs, own0: seq<Owner>, i: int, off: int, src: seq<int>, tot: int)
      requires WroteUpTo(sb, fs0, own0, Abs(), own, i, off, src, tot)
      ensures Owned(sb, Abs(), own) && Shape(sb, Abs()) && 0 <= i < sb.ninodes && Shape(sb, fs0)
      ensures 0 <= off <= fs0.ino[i].size && 0 <= tot <= |src| && off + |src| <= MAXFILE * BSIZE
      ensures Dense(sb, Abs(), i, Reach(fs0.ino[i].size, off + tot)) && ino[i].size == fs0.ino[i].size
      ensures tot < |src| ==> (off + tot) / BSIZE < MAXFILE
    {
    }

    /** What one bmap in the loop adds to the counts of touched and allocated blocks. */
    lemma MappedCosts(fs0: Fs, own0: seq<Owner>, fs1: Fs, own1: seq<Owner>, i: int, off: int, src: seq<int>, tot: int,
                      addr: int, m: int)
      requires WroteUpTo(sb, fs0, own0, fs1, own1, i, off, src, tot) && 0 < m <= |src| - tot
      requires m <= BSIZE - (off + tot) % BSIZE && (0 < tot ==> (off + tot) % BSIZE == 0)
      requires Mapped(sb, fs1, own1, Abs(), own, i, (off + tot) / BSIZE, addr)
      ensures Shape(sb, fs0) && Shape(sb, fs1) && Shape(sb, Abs()) && 0 <= i < sb.ninodes
      ensures (off + tot) / BSIZE < MAXFILE
      ensures MapCost(sb, fs1, i, (off + tot) / BSIZE) + Fresh(fs0.ino[i].size, off + tot) ==
        Fresh(fs0.ino[i].size, off + tot + m)
      ensures Touched(off, tot + m) == Touched(off, tot) + 1
      ensures fs1.ino[i].addrs[NDIRECT] != 0 ==> ino[i].addrs[NDIRECT] == fs1.ino[i].addrs[NDIRECT]
      ensures (off + tot) / BSIZE >= NDIRECT ==> ino[i].addrs[NDIRECT] != 0
    {
      hide Slot, BytesUpTo, Dense;
      OneMoreBlock(fs0.ino[i].size, off, tot, m);
      MappedDense(sb, fs1, own1, Abs(), own, i, (off + tot) / BSIZE, addr, Reach(fs0.ino[i].size, off + tot));
    }

    lemma WriteEnd(fs0: Fs, own0: seq<Owner>, fs1: Fs, i: int, off: int, src: seq<int>)
      requires WroteUpTo(sb, fs0, own0, fs1, own, i, off, src, |src|)
      requires Shape(sb, fs0) && Shape(sb, fs1) && 0 <= i < sb.ninodes
      requires Abs() == if off + |src| > fs0.ino[i].size
                        then var n := fs1.ino[i].(size := off + |src|);
                             fs1.(ino := fs1.ino[i := n], dino := fs1.dino[i := n])
                        else fs1
      ensures Valid() && Inv(sb, fs0, own0) && |ino| == sb.ninodes && 0 <= off <= fs0.ino[i].size
      ensures Contents(sb, Abs(), i) == Splice(Contents(sb, fs0, i), off, src)
      ensures forall i' | 0 <= i' < sb.ninodes && i' != i :: Contents(sb, Abs(), i') == Contents(sb, fs0, i')
      ensures forall x | 0 <= x < sb.size :: own[x] == Reserved <==> own0[x] == Reserved
      ensures off + |src| <= fs0.ino[i].size ==> ino == fs0.ino
    {
      hide Slot, BytesUpTo, Contents, Dense, Splice;
      WriteContents(sb, fs0, own0, fs1, own, i, off, src, Abs());
      if off + |src| <= fs0.ino[i].size { SameAddrs(sb, fs0, own0, fs1, own, i, off, src); }
    }

    /** The blocks logged by the loop, all but the inode's. */
    lemma CountLogged(before: set<int>, data: set<int>, bms: set<int>, fs0: Fs, own0: seq<Owner>, i: int, off: int,
                      src: seq<int>)
      requires WroteUpTo(sb, fs0, own0, Abs(), own, i, off, src, |src|) && Shape(sb, fs0)
      requires Shape(sb, Abs()) && 0 <= i < sb.ninodes
      requires LogBound(before, data, bms, i, Touched(off, |src|), Fresh(fs0.ino[i].size, off + |src|))
      ensures |logged| + (if off + |src| > fs0.ino[i].size then 1 else 0)
        <= |before| + Cost(fs0.ino[i].size, off, |src|)
    {
      hide Slot, BytesUpTo, Inv;
      var ind := if ino[i].addrs[NDIRECT] == 0 then {} else {ino[i].addrs[NDIRECT]};
      UnionBound(before, data);
      UnionBound(before + data, bms);
      UnionBound(before + data + bms, ind);
      SubsetBound(logged, before + data + bms + ind);
    }

    lemma LogBoundStart(i: int)
      requires Shape(sb, Abs()) && 0 <= i < sb.ninodes
      ensures LogBound(logged, {}, {}, i, 0, 0)
    {
    }

    /** What writei may log beyond what was logged before it. */
    ghost predicate LogBound(before: set<int>, data: set<int>, bms: set<int>, i: int, nd: int, nb: int)
      reads this
      requires Shape(sb, Abs()) && 0 <= i < sb.ninodes
    {
      && logged <= before + data + bms + (if ino[i].addrs[NDIRECT] == 0 then {} else {ino[i].addrs[NDIRECT]})
      && |data| <= nd && |bms| <= nb
    }

    /** One iteration of writei: bmap, memmove, log_write. */
    method WriteBlock(ghost fs0: Fs, ghost own0: seq<Owner>, i: int, off: int, src: seq<int>, tot: int, m: int,
                      ghost before: set<int>, ghost data: set<int>, ghost bms: set<int>)
      returns (ok: bool, ghost data': set<int>, ghost bms': set<int>, ghost mid: set<int>, ghost f: Fs, ghost addr: int)
      requires WroteUpTo(sb, fs0, own0, Abs(), own, i, off, src, tot) && forall j | 0 <= j < |src| :: 0 <= src[j] < 256
      requires 0 <= off && 0 <= tot && 0 < m <= |src| - tot && m <= BSIZE - (off + tot) % BSIZE
      requires 0 < tot ==> (off + tot) % BSIZE == 0
      requires Shape(sb, Abs()) && Shape(sb, fs0) && 0 <= i < sb.ninodes
      requires LogBound(before, data, bms, i, Touched(off, tot), Fresh(fs0.ino[i].size, off + tot))
      modifies this`bits, this`blk, this`ino, this`own, this`logged
      ensures (off + tot) / BSIZE < MAXFILE
      ensures !ok ==> Full() && Owned(sb, Abs(), own) && Grew(old(own), own)
      ensures !ok ==> |NewBlocks(old(own), own)| < MapCost(sb, old(Abs()), i, (off + tot) / BSIZE)
      ensures ok ==> WroteUpTo(sb, fs0, own0, Abs(), own, i, off, src, tot + m) && Shape(sb, Abs())
      ensures ok ==> LogBound(before, data', bms', i, Touched(off, tot + m), Fresh(fs0.ino[i].size, off + tot + m))
      ensures ok ==> Mapped(sb, old(Abs()), old(own), f, own, i, (off + tot) / BSIZE, addr) && f.ino == ino
      ensures ok ==> SameSlots(sb, f, Abs()) && logged == mid + {addr}
      ensures ok ==>
        Allocated(sb, old(own), own, old(logged), mid, Ind(i), i, MapCost(sb, old(Abs()), i, (off + tot) / BSIZE))
    {
      hide Slot, Inv, Mapped, WroteUpTo, Touched, Fresh, MapCost, Dense, Allocated, SameSlots;
      ghost var fs1, own1, log1 := Abs(), own, logged;
      var a;
      ghost var more;
      Progress(fs0, own0, i, off, src, tot);
      ok, a, more := Bmap(i, (off + tot) / BSIZE);
      data', bms', addr, mid, f := data + {a}, bms + more, a, logged, Abs();
      if !ok { return; }
      WriteStep(sb, fs0, own0, fs1, own1, i, off, src, tot, Abs(), own, a, m);
      MappedFacts(sb, fs1, own1, Abs(), own, i, (off + tot) / BSIZE, a);
      MappedCosts(fs0, own0, fs1, own1, i, off, src, tot, a, m);
      PatchKeepsSlots(sb, Abs(), own, i, (off + tot) / BSIZE, a, (off + tot) % BSIZE, src[tot..tot + m]);
      blk := blk[a := Patch(blk[a], (off + tot) % BSIZE, src[tot..tot + m])];
      logged := logged + {a};
      FileBlocksShape(fs0, own0, i, off, src, tot + m);
      UnionBound(data, {a});
      UnionBound(bms, more);
    }

    lemma FileBlocksShape(fs0: Fs, own0: seq<Owner>, i: int, off: int, src: seq<int>, tot: int)
      requires WroteUpTo(sb, fs0, own0, Abs(), own, i, off, src, tot)
      ensures Shape(sb, Abs())
    {
    }

    ghost predicate Progressing(fs0: Fs, own0: seq<Owner>, before: set<int>, data: set<int>, bms: set<int>,
                                i: int, src: seq<int>, off: int, tot: int)
      reads this
    {
      && WroteUpTo(sb, fs0, own0, Abs(), own, i, off, src, tot) && Shape(sb, Abs()) && i < |fs0.ino|
      && LogBound(before, data, bms, i, Touched(off, tot), Fresh(fs0.ino[i].size, off + tot))
      && Books(sb, fs0.ino[i].size, own0, before, Abs(), own, logged, i, off, tot)
    }

    /** The loop of writei; `stop` is the panic, when there are fewer free blocks than it needs. */
    method WriteLoop(i: int, src: seq<int>, off: int) returns (stop: bool, ghost data: set<int>, ghost bms: set<int>)
      requires Valid() && 0 <= i < |ino| && 0 <= off <= ino[i].size && off + |src| <= MAXFILE * BSIZE
      requires forall j | 0 <= j < |src| :: 0 <= src[j] < 256
      modifies this`bits, this`blk, this`ino, this`own, this`logged
      ensures stop ==> Full() && |FreeBlocks(old(own))| < Fresh(old(ino)[i].size, off + |src|)
      ensures !stop ==> Progressing(old(Abs()), old(own), old(logged), data, bms, i, src, off, |src|)
    {
      hide Slot, Inv, Contents, WroteUpTo, Touched, Fresh, LogBound, Books, Mapped, Allocated, SameSlots, MapCost,
        Dense, Owned, Grew, NewBlocks, FreeBlocks;
      ValidFacts(i);
      var n := |src|;
      ghost var fs0, own0, before := Abs(), own, logged;
      data, bms := {}, {};
      WriteStart(i, off, src);
      LogBoundStart(i);
      BooksOpen(sb, fs0, own0, before, i, off);
      var tot, o := 0, off;
      while tot < n
        invariant 0 <= tot <= n && o == off + tot && (0 < tot < n ==> o % BSIZE == 0)
        invariant Progressing(fs0, own0, before, data, bms, i, src, off, tot)
      {
        var m := if n - tot < BSIZE - o % BSIZE then n - tot else BSIZE - o % BSIZE;
        ghost var fs1, own1, log1 := Abs(), own, logged;
        Progress(fs0, own0, i, off, src, tot);
        var ok;
        ghost var mid, f, addr;
        ok, data, bms, mid, f, addr := WriteBlock(fs0, own0, i, off, src, tot, m, before, data, bms);
        if !ok {
          OutOfBlocks(sb, fs0.ino[i].size, own0, before, fs1, own1, log1, Abs(), own, i, off, tot, m, n);
          return true, data, bms;
        }
        BooksNext(sb, fs0.ino[i].size, own0, before, fs1, own1, log1, f, own, Abs(), mid, logged, i, off, tot, m, addr);
        tot, o := tot + m, o + m;
      }
      return false, data, bms;
    }

    /** writei on a regular file: -1 and nothing done, or all n bytes in place.  `stop` is the panic for
        want of free blocks.  What is logged is said exactly, and is within Cost. */
    method Writei(i: int, src: seq<int>, off: int) returns (stop: bool, r: int)
      requires Valid() && 0 <= i < |ino| && 0 <= off < UINT && |src| < UINT
      requires forall j | 0 <= j < |src| :: 0 <= src[j] < 256
      modifies this`bits, this`blk, this`ino, this`dino, this`own, this`logged
      ensures stop <==> off <= old(ino)[i].size && off + |src| <= MAXFILE * BSIZE
                        && |FreeBlocks(old(own))| < Fresh(old(ino)[i].size, off + |src|)
      ensures stop ==> Full()
      ensures !stop ==> Valid() && |ino| == |old(ino)| == sb.ninodes
      ensures !stop ==> (r == -1 <==> off > old(ino)[i].size || off + |src| > MAXFILE * BSIZE)
      ensures !stop && r == -1 ==> Abs() == old(Abs()) && own == old(own) && logged == old(logged)
      ensures !stop && r != -1 ==> r == |src| && Wrote(old(Abs()), old(own), old(logged), i, src, off)
      ensures !stop && r != -1 ==> LoggedExactly(old(Abs()), old(own), old(logged), i, off, |src|)
    {
      hide Slot, Inv, Contents, WroteUpTo, Touched, Fresh, LogBound, Wrote, Cost, Books, FreeBlocks, LoggedExactly,
        Owned, Dense;
      ValidFacts(i);
      var n := |src|;
      if off > ino[i].size || (off + n) % UINT < off { return false, -1; }
      if (off + n) % UINT > MAXFILE * BSIZE { return false, -1; }
      ghost var fs0, own0, before := Abs(), own, logged;
      ghost var data, bms;
      stop, data, bms := WriteLoop(i, src, off);
      if stop { return true, 0; }
      ghost var fs1, log1 := Abs(), logged;
      Progress(fs0, own0, i, off, src, n);
      CountLogged(before, data, bms, fs0, own0, i, off, src);
      UnionBound(logged, {IBlock(sb, i)});
      if n > 0 && off + n > ino[i].size {
        ino := ino[i := ino[i].(size := off + n)];
        Iupdate(i);
      }
      WriteEnd(fs0, own0, fs1, i, off, src);
      WroteAll(fs0, own0, before, i, src, off);
      BooksClose(fs0, own0, before, fs1, log1, i, off, n);
      return false, n;
    }

    /** A write allocates exactly the blocks that are missing and logs exactly the data blocks in the
        range, what allocating takes, and the inode's block if the file grows. */
    ghost predicate LoggedExactly(fs0: Fs, own0: seq<Owner>, before: set<int>, i: int, off: int, n: int)
      reads this
    {
      && Shape(sb, Abs()) && 0 <= i < sb.ninodes && i < |fs0.ino|
      && Grew(own0, own) && |NewBlocks(own0, own)| == Fresh(fs0.ino[i].size, off + n)
      && logged == before + DataOf(sb, Abs(), i, off, n) + AllocLog(sb, own0, own, Ind(i))
                   + (if off + n > fs0.ino[i].size then {IBlock(sb, i)} else {})
    }

    lemma BooksClose(fs0: Fs, own0: seq<Owner>, before: set<int>, fs1: Fs, log1: set<int>, i: int, off: int, n: int)
      requires 0 <= i < |fs0.ino| && Books(sb, fs0.ino[i].size, own0, before, fs1, own, log1, i, off, n)
      requires Shape(sb, Abs()) && blk == fs1.blk && |ino| == |fs1.ino|
      requires forall j | 0 <= j < |ino| :: ino[j].addrs == fs1.ino[j].addrs
      requires logged == log1 + if off + n > fs0.ino[i].size then {IBlock(sb, i)} else {}
      ensures LoggedExactly(fs0, own0, before, i, off, n)
      ensures Fresh(fs0.ino[i].size, off + n) <= |FreeBlocks(own0)|
    {
      hide AllocLog, Fresh, Touched;
      NewWereFree(own0, own);
      assert DataOf(sb, Abs(), i, off, n) == DataOf(sb, fs1, i, off, n);
    }

    /** The effect of a successful writei: the bytes spliced in, every other file as it was, no
        block lost or stolen, and at most Cost blocks logged. */
    ghost predicate Wrote(fs0: Fs, own0: seq<Owner>, before: set<int>, i: int, src: seq<int>, off: int) reads this {
      && Inv(sb, fs0, own0) && Valid() && 0 <= i < sb.ninodes && 0 <= off <= fs0.ino[i].size
      && Contents(sb, Abs(), i) == Splice(Contents(sb, fs0, i), off, src)
      && (forall i' | 0 <= i' < sb.ninodes && i' != i :: Contents(sb, Abs(), i') == Contents(sb, fs0, i'))
      && (forall x | 0 <= x < sb.size :: own[x] == Reserved <==> own0[x] == Reserved)
      && |logged| <= |before| + Cost(fs0.ino[i].size, off, |src|)
    }

    lemma WroteAll(fs0: Fs, own0: seq<Owner>, before: set<int>, i: int, src: seq<int>, off: int)
      requires Inv(sb, fs0, own0) && Valid() && 0 <= i < sb.ninodes && 0 <= off <= fs0.ino[i].size
      requires Contents(sb, Abs(), i) == Splice(Contents(sb, fs0, i), off, src)
      requires forall i' | 0 <= i' < sb.ninodes && i' != i :: Contents(sb, Abs(), i') == Contents(sb, fs0, i')
      requires forall x | 0 <= x < sb.size :: own[x] == Reserved <==> own0[x] == Reserved
      requires |logged| <= |before| + Cost(fs0.ino[i].size, off, |src|)
      ensures Wrote(fs0, own0, before, i, src, off)
    {
    }

    /** The first loop of itrunc: the direct blocks. */
    method TruncDirect(ghost fs0: Fs, ghost own0: seq<Owner>, i: int) returns (ok: bool)
      requires Owned(sb, Abs(), own) && Shape(sb, Abs()) && |own| == sb.size && 0 <= i < sb.ninodes
      requires Released(own0, own, i) && TruncFrame(fs0, Abs(), i)
      modifies this`bits, this`ino, this`own, this`logged
      ensures ok && Owned(sb, Abs(), own) && Shape(sb, Abs()) && |own| == sb.size
      ensures Released(own0, own, i) && TruncFrame(fs0, Abs(), i)
      ensures forall j | 0 <= j < NDIRECT :: ino[i].addrs[j] == 0
      ensures logged + MapBlocks(sb, own, i) == old(logged) + MapBlocks(sb, old(own), i)
    {
      hide Slot, OwnedUpTo, MapBlocks;
      ok := true;
      var k := 0;
      while k < NDIRECT
        invariant 0 <= k <= NDIRECT && ok
        invariant Owned(sb, Abs(), own) && Shape(sb, Abs()) && |own| == sb.size
        invariant Released(own0, own, i) && TruncFrame(fs0, Abs(), i)
        invariant forall j | 0 <= j < k :: ino[i].addrs[j] == 0
        invariant logged + MapBlocks(sb, own, i) == old(logged) + MapBlocks(sb, old(own), i)
      {
        if ino[i].addrs[k] != 0 {
          DropDirect(sb, Abs(), own, i, k);
          FreeOne(sb, own, i, k, ino[i].addrs[k]);
          ok := Bfree(ino[i].addrs[k]);
          own := own[ino[i].addrs[k] := Free];
          ino := ino[i := SetAddr(ino[i], k, 0)];
          OwnedShape(own);
        }
        k := k + 1;
      }
    }

    /** The second loop of itrunc: the blocks that the indirect block names, then that block. */
    method TruncIndirect(ghost fs0: Fs, ghost own0: seq<Owner>, i: int) returns (ok: bool)
      requires Owned(sb, Abs(), own) && Shape(sb, Abs()) && |own| == sb.size && 0 <= i < sb.ninodes
      requires Released(own0, own, i) && TruncFrame(fs0, Abs(), i)
      requires ino[i].addrs[NDIRECT] != 0 && forall k | 0 <= k < NDIRECT :: ino[i].addrs[k] == 0
      modifies this`bits, this`ino, this`own, this`logged
      ensures ok && Owned(sb, Abs(), own) && Shape(sb, Abs()) && |own| == sb.size
      ensures Released(own0, own, i) && TruncFrame(fs0, Abs(), i)
      ensures forall k | 0 <= k <= NDIRECT :: ino[i].addrs[k] == 0
      ensures logged + MapBlocks(sb, own, i) == old(logged) + MapBlocks(sb, old(own), i)
    {
      hide Slot, OwnedUpTo, Word, MapBlocks;
      ok := true;
      NoIndirect(sb, Abs(), own, i);
      var a := blk[ino[i].addrs[NDIRECT]];
      var j := 0;
      while j < NINDIRECT
        invariant 0 <= j <= NINDIRECT && ok && |own| == sb.size
        invariant OwnedUpTo(sb, Abs(), own, i, j) && Shape(sb, Abs())
        invariant Released(own0, own, i) && TruncFrame(fs0, Abs(), i) && ino == old(ino)
        invariant logged + MapBlocks(sb, own, i) == old(logged) + MapBlocks(sb, old(own), i)
      {
        DropEntry(sb, Abs(), own, i, j);
        if Word(a, j) != 0 {
          FreeOne(sb, own, i, NDIRECT + 1 + j, Word(a, j));
          ok := Bfree(Word(a, j));
          own := own[Word(a, j) := Free];
        }
        j := j + 1;
      }
      DropIndirect(sb, Abs(), own, i);
      FreeOne(sb, own, i, NDIRECT, ino[i].addrs[NDIRECT]);
      ok := Bfree(ino[i].addrs[NDIRECT]);
      own := own[ino[i].addrs[NDIRECT] := Free];
      ino := ino[i := SetAddr(ino[i], NDIRECT, 0)];
      OwnedShape(own);
    }

    /** itrunc: bfree never panics, exactly this inode's blocks become free, and no other file
        changes. */
    method Itrunc(i: int) returns (ok: bool)
      requires Valid() && 0 <= i < |ino|
      modifies this`bits, this`ino, this`dino, this`own, this`logged
      ensures ok && Valid() && |ino| == |old(ino)| == sb.ninodes && Contents(sb, Abs(), i) == []
      ensures forall i' | 0 <= i' < sb.ninodes && i' != i :: Contents(sb, Abs(), i') == Contents(sb, old(Abs()), i')
      ensures forall x | 0 <= x < sb.size ::
        own[x] == if old(own)[x].Own? && old(own)[x].i == i then Free else old(own)[x]
      ensures logged == old(logged) + MapBlocks(sb, old(own), i) + {IBlock(sb, i)}
      ensures |logged| <= |old(logged)| + NBitmaps(sb) + 1
    {
      hide Slot, Inv, Contents, OwnedUpTo, MapBlocks;
      ValidFacts(i);
      OwnedShape(own);
      ghost var fs0, own0 := Abs(), own;
      ok := TruncDirect(fs0, own0, i);
      if ino[i].addrs[NDIRECT] != 0 {
        ok := TruncIndirect(fs0, own0, i);
      }
      ghost var fs1 := Abs();
      ino := ino[i := ino[i].(size := 0)];
      Iupdate(i);
      TruncDone(sb, fs0, own0, fs1, own, i, Abs());
      AllFreed(sb, own0, own, i);
      MapBlocksBound(sb, own0, i);
      UnionBound(old(logged), MapBlocks(sb, own0, i));
      UnionBound(old(logged) + MapBlocks(sb, own0, i), {IBlock(sb, i)});
    }

    lemma OwnedShape(own: seq<Owner>)
      requires Owned(sb, Abs(), own)
      ensures Shape(sb, Abs()) && |own| == sb.size
    {
    }

    lemma WrittenMore(fs0: Fs, own0: seq<Owner>, fs1: Fs, own1: seq<Owner>, i: int, src: seq<int>, off: int, k: int,
                      n1: int)
      requires Written(sb, fs0, own0, fs1, own1, i, src, off, k) && 0 < n1 && 0 <= k && k + n1 <= |src| && 0 <= off
      requires Wrote(fs1, own1, {}, i, src[k..k + n1], off + k)
      ensures Written(sb, fs0, own0, Abs(), own, i, src, off, k + n1)
    {
      hide Slot, Cost, Inv, Contents;
      ContentsSize(sb, fs0, own0, i);
      ContentsSize(sb, fs1, own1, i);
      ContentsSize(sb, Abs(), own, i);
      assert src[..k + n1] == src[..k] + src[k..k + n1];
      if k > 0 {
        SpliceTwice(Contents(sb, fs0, i), off, src[..k], src[k..k + n1]);
      } else {
        assert src[..n1] == src[0..n1];
      }
    }

    /** One chunk of filewrite, a whole operation: begin_op, writei, end_op. */
    method WriteChunk(ghost fs0: Fs, ghost own0: seq<Owner>, i: int, addr: seq<int>, off: int, done: int, n1: int)
      returns (stop: bool, w: int)
      requires Written(sb, fs0, own0, Abs(), own, i, addr, off, done) && |addr| < UINT && 0 <= off
      requires 0 < n1 <= CHUNK && done + n1 <= |addr| && off + done < UINT
      requires forall j | 0 <= j < |addr| :: 0 <= addr[j] < 256
      requires 0 <= i < |fs0.ino| && i < |ino| && Spent(own0, fs0.ino[i].size, own, ino[i].size, off, done)
      modifies this`bits, this`blk, this`ino, this`dino, this`own, this`logged
      ensures stop ==> Full()
      ensures stop <==> off <= fs0.ino[i].size && off + done + n1 <= MAXFILE * BSIZE
                        && |FreeBlocks(own0)| < Fresh(fs0.ino[i].size, off + done + n1)
      ensures !stop ==> |ino| == |old(ino)| && (w == -1 ==> ino == old(ino) && own == old(own))
      ensures !stop && w != -1 ==> i < |ino| && Spent(own0, fs0.ino[i].size, own, ino[i].size, off, done + n1)
      ensures !stop ==> |logged| <= MAXOPBLOCKS
      ensures !stop ==> w == -1 || w == n1
      ensures !stop ==> Written(sb, fs0, own0, Abs(), own, i, addr, off, if w == -1 then done else done + n1)
      ensures !stop ==>
        (w == n1 <==> (done > 0 || off <= fs0.ino[i].size) && off + done + n1 <= MAXFILE * BSIZE)
    {
      hide Slot, Inv, Contents, OwnedUpTo, Cost, Written, Wrote, Shape, LoggedExactly, FreeBlocks, Fresh, Full;
      SizesAgree(fs0, own0, i, addr, off, done);
      ghost var fs1, own1 := Abs(), own;
      logged := {};
      SpentSoFar(own0, fs0.ino[i].size, own1, fs1.ino[i].size, off, done, n1);
      stop, w := Writei(i, addr[done..done + n1], off + done);
      if stop || w == -1 { return; }
      SpentMore(fs0, own0, fs1, own1, i, addr[done..done + n1], off, done);
      WroteFits(fs1, own1, i, addr[done..done + n1], off + done);
      WrittenMore(fs0, own0, fs1, own1, i, addr, off, done, n1);
    }

    /** filewrite on an inode: chunks of at most CHUNK bytes, each its own operation.  `ops` are
        the distinct blocks that each operation logged. */
    method Filewrite(i: int, addr: seq<int>, n: int, off: int)
      returns (stop: bool, r: int, off': int, ghost ops: seq<set<int>>)
      requires Valid() && 0 <= i < |ino| && 0 <= off < UINT && n <= |addr| && |addr| < UINT
      requires forall j | 0 <= j < |addr| :: 0 <= addr[j] < 256
      modifies this`bits, this`blk, this`ino, this`dino, this`own, this`logged
      ensures stop ==> Full()
      ensures Ended(old(ino)[i].size, |FreeBlocks(old(own))|, off, n, stop, off' - off, |ops|)
      ensures forall p | 0 <= p < |ops| :: |ops[p]| <= MAXOPBLOCKS
      ensures !stop ==> off <= off' && Written(sb, old(Abs()), old(own), Abs(), own, i, addr, off, off' - off)
      ensures !stop ==> r == if off' - off == n then n else -1
      ensures !stop ==>
        (r == n && n >= 0 <==> n == 0 || (n > 0 && off <= old(ino)[i].size && off + n <= MAXFILE * BSIZE))
    {
      hide Slot, Inv, Contents, OwnedUpTo, Written, Spent, FreeBlocks, Fresh, Full, Shape, Ended;
      ghost var fs0, own0 := Abs(), own;
      ops := [];
      r, off' := -1, off;
      NothingSpent(own, ino[i].size, off);
      WrittenNone(i, addr, off);
      SizeFits(i);
      var done := 0;
      while done < n
        invariant 0 <= done && (done > 0 ==> done <= n && off <= fs0.ino[i].size && off + done <= MAXFILE * BSIZE)
        invariant off' == off + done && Written(sb, fs0, own0, Abs(), own, i, addr, off, done)
        invariant forall p | 0 <= p < |ops| :: |ops[p]| <= MAXOPBLOCKS
        invariant |ino| == |fs0.ino| && Spent(own0, fs0.ino[i].size, own, ino[i].size, off, done)
        invariant WholeSoFar(n, done, |ops|)
      {
        var n1 := n - done;
        if n1 > CHUNK { n1 := CHUNK; }
        var w;
        stop, w := WriteChunk(fs0, own0, i, addr, off, done, n1);
        if stop {
          EndsStopped(fs0.ino[i].size, |FreeBlocks(own0)|, off, n, done, n1, |ops|);
          return;
        }
        NextChunk(n, done, n1, |ops|);
        ops := ops + [logged];
        if w == -1 {
          SpentFits(own0, fs0.ino[i].size, own, ino[i].size, off, done);
          EndsShort(fs0.ino[i].size, |FreeBlocks(own0)|, off, n, done, n1, |ops| - 1);
          return false, -1, off', ops;
        }
        off' := off' + w;
        done := done + n1;
      }
      stop := false;
      SpentFits(own0, fs0.ino[i].size, own, ino[i].size, off, done);
      EndsDone(fs0.ino[i].size, |FreeBlocks(own0)|, off, n, done, |ops|);
      r := if done == n then n else -1;
    }

    lemma NothingSpent(own: seq<Owner>, size: int, off: int)
      requires 0 <= off
      ensures Spent(own, size, own, size, off, 0)
    {
      if off <= size { assert NewBlocks(own, own) == {}; }
    }

    lemma SpentFits(own0: seq<Owner>, size0: int, own: seq<Owner>, size: int, off: int, done: int)
      requires Spent(own0, size0, own, size, off, done)
      ensures off <= size0 ==> Fresh(size0, off + done) <= |FreeBlocks(own0)|
    {
      NewWereFree(own0, own);
    }

    /** The same in bytes: chunks of 1536, files of at most 71680. */
    lemma EndsAt(size: int, free: int, off: int, n: int, done: int, ops: int)
      requires 0 <= off <= size && n > 0 && Ended(size, free, off, n, false, done, ops)
      ensures off + n <= 71680 ==> done == n && ops == (n + 1535) / 1536
      ensures off + n > 71680 ==> done == (71680 - off) / 1536 * 1536 && ops == (71680 - off) / 1536 + 1
    {
      hide Fresh;
    }

    /** After k chunks: all whole ones, or all of the n bytes. */
    ghost predicate WholeSoFar(n: int, done: int, k: int) {
      0 <= k && if done < n || n < 0 then done == k * CHUNK else done == n && k == (n + CHUNK - 1) / CHUNK
    }

    lemma NextChunk(n: int, done: int, n1: int, k: int)
      requires WholeSoFar(n, done, k) && done < n && n1 == if n - done > CHUNK then CHUNK else n - done
      ensures WholeSoFar(n, done + n1, k + 1)
    {
      ChunkCount(k, n, 0);
    }

    /** A chunk that finds no blocks lies before the end that filewrite would get to. */
    lemma EndsStopped(size: int, free: int, off: int, n: int, done: int, n1: int, k: int)
      requires WholeSoFar(n, done, k) && 0 <= off <= size && done < n && off + done + n1 <= MAXFILE * BSIZE
      requires n1 == if n - done > CHUNK then CHUNK else n - done
      requires free < Fresh(size, off + done + n1)
      ensures Ended(size, free, off, n, true, done, k)
    {
      hide Fresh;
      WholeChunks(k, MAXFILE * BSIZE - off);
      var end := if off + n <= MAXFILE * BSIZE then off + n else off + (MAXFILE * BSIZE - off) / CHUNK * CHUNK;
      FreshSplit(size, off + done + n1, end);
    }

    lemma EndsShort(size: int, free: int, off: int, n: int, done: int, n1: int, k: int)
      requires WholeSoFar(n, done, k) && 0 <= off && done < n && 0 <= size <= MAXFILE * BSIZE
      requires n1 == if n - done > CHUNK then CHUNK else n - done
      requires off > size ==> done == 0
      requires off <= size ==> off + done <= MAXFILE * BSIZE < off + done + n1 && Fresh(size, off + done) <= free
      ensures Ended(size, free, off, n, false, done, k + 1)
    {
      hide Fresh;
      ChunkCount(k, n, MAXFILE * BSIZE - off);
    }

    lemma EndsDone(size: int, free: int, off: int, n: int, done: int, k: int)
      requires WholeSoFar(n, done, k) && 0 <= off && n <= done && (n <= 0 ==> done == 0 && k == 0)
      requires n > 0 ==> off <= size && off + n <= MAXFILE * BSIZE && Fresh(size, off + done) <= free
      ensures Ended(size, free, off, n, false, done, k)
    {
      hide Fresh;
    }

    lemma WholeChunks(k: int, room: int)
      ensures (k + 1) * CHUNK <= room ==> (k + 1) * CHUNK <= room / CHUNK * CHUNK
    {
      assert CHUNK == 1536 && room == room / 1536 * 1536 + room % 1536;
    }

    lemma SpentSoFar(own0: seq<Owner>, size0: int, own1: seq<Owner>, size1: int, off: int, done: int, n1: int)
      requires Spent(own0, size0, own1, size1, off, done) && 0 <= off && 0 <= done && 0 < n1 && 0 <= size0
      ensures off <= size0 ==>
        off + done <= size1
        && (|FreeBlocks(own1)| < Fresh(size1, off + done + n1) <==> |FreeBlocks(own0)| < Fresh(size0, off + done + n1))
    {
      hide Fresh, FreeBlocks, NewBlocks, Grew;
      FreshSplit(size0, off + done, off + done + n1);
      if off <= size0 { FreeAfter(own0, own1); }
    }

    lemma SpentMore(fs0: Fs, own0: seq<Owner>, fs1: Fs, own1: seq<Owner>, i: int, src: seq<int>, off: int, done: int)
      requires 0 <= i < |fs0.ino| && i < |fs1.ino| && 0 <= fs0.ino[i].size && 0 <= off && 0 <= done
      requires Spent(own0, fs0.ino[i].size, own1, fs1.ino[i].size, off, done)
      requires Wrote(fs1, own1, {}, i, src, off + done) && LoggedExactly(fs1, own1, {}, i, off + done, |src|)
      ensures i < |ino| && Spent(own0, fs0.ino[i].size, own, ino[i].size, off, done + |src|)
    {
      hide Slot, Inv, Contents, Cost, Fresh, NewBlocks, Grew, DataOf, AllocLog;
      ContentsSize(sb, fs1, own1, i);
      ContentsSize(sb, Abs(), own, i);
      FreshSplit(fs0.ino[i].size, off + done, off + done + |src|);
      if off <= fs0.ino[i].size { NewAdds(own0, own1, own); }
    }

    lemma SizeFits(i: int)
      requires Valid() && 0 <= i < |ino|
      ensures 0 <= ino[i].size <= MAXFILE * BSIZE
    {
    }

    /** How many chunks there are up to byte n, when k whole ones have been written, and up to the
        largest file. */
    lemma ChunkCount(k: int, n: int, room: int)
      requires 0 <= k && k * CHUNK < n
      ensures n - k * CHUNK <= CHUNK ==> (n + CHUNK - 1) / CHUNK == k + 1
      ensures k * CHUNK <= room < k * CHUNK + CHUNK ==> room / CHUNK == k
    {
      DivIs(n + CHUNK - 1, k + 1);
      DivIs(room, k);
    }

    lemma DivIs(a: int, k: int)
      ensures k * CHUNK <= a < k * CHUNK + CHUNK ==> a / CHUNK == k
    {
      assert CHUNK == 1536;
      assert a == a / 1536 * 1536 + a % 1536;
    }

    lemma WroteFits(fs1: Fs, own1: seq<Owner>, i: int, src: seq<int>, off: int)
      requires Wrote(fs1, own1, {}, i, src, off) && |src| <= CHUNK
      ensures |logged| <= MAXOPBLOCKS
    {
      hide Slot, Contents, Dense;
      ChunkFits(fs1.ino[i].size, off, |src|);
    }

    lemma WrittenNone(i: int, src: seq<int>, off: int)
      requires Valid() && 0 <= i < |ino|
      ensures Written(sb, Abs(), own, Abs(), own, i, src, off, 0)
    {
    }

    lemma SizesAgree(fs0: Fs, own0: seq<Owner>, i: int, src: seq<int>, off: int, k: int)
      requires Written(sb, fs0, own0, Abs(), own, i, src, off, k)
      ensures Inv(sb, fs0, own0) && Valid() && 0 <= i < sb.ninodes && |ino| == sb.ninodes
      ensures ino[i].size <= MAXFILE * BSIZE && 0 <= k <= |src| && |fs0.ino| == sb.ninodes
      ensures k == 0 ==> ino[i].size == fs0.ino[i].size
      ensures k > 0 ==> 0 <= off <= fs0.ino[i].size && off + k <= ino[i].size
    {
    }
  }
}
