/** The block map of fs.c on values: the free bitmap, the inodes' direct and indirect block
    pointers, and who owns which block. */
module FileBlocks {
  import opened Params

  const BSIZE: int := 512
  const NDIRECT: int := 12
  const NINDIRECT: int := 128
  const MAXFILE: int := NDIRECT + NINDIRECT
  const BPB: int := BSIZE * 8
  const IPB: int := 8

  /** An indirect block holds four-byte block numbers, a dinode eight bytes of type and links, four of size
      and NDIRECT + 1 block numbers; the largest file has 70 kilobytes. */
  lemma Layout()
    ensures NINDIRECT * 4 == BSIZE == 512 && IPB * (4 * 2 + 4 + 4 * (NDIRECT + 1)) == BSIZE
    ensures MAXFILE * BSIZE == 70 * 1024 && BPB == 8 * BSIZE
  {
  }

  /** The part of the superblock that fs.c uses; blocks below `data` are metadata. */
  datatype Super = Super(size: int, ninodes: int, inodestart: int, bmapstart: int, data: int)

  predicate ValidSuper(sb: Super) {
    0 < sb.data <= sb.size < UINT && 0 <= sb.ninodes && 0 <= sb.inodestart && 0 <= sb.bmapstart
  }

  function BBlock(sb: Super, b: int): int { b / BPB + sb.bmapstart }

  function IBlock(sb: Super, i: int): int { i / IPB + sb.inodestart }

  // ----- blocks: bytes, and the little-endian words an indirect block holds -----

  datatype Blk = Blk(bytes: seq<int>)

  predicate ValidBlk(b: Blk) { |b.bytes| == BSIZE && forall j | 0 <= j < BSIZE :: 0 <= b.bytes[j] < 256 }

  function Zero(): Blk { Blk(seq(BSIZE, _ => 0)) }

  function Word(b: Blk, j: int): int
    requires 0 <= j < NINDIRECT && |b.bytes| == BSIZE
  {
    b.bytes[4 * j] + 0x100 * b.bytes[4 * j + 1] + 0x1_0000 * b.bytes[4 * j + 2] + 0x100_0000 * b.bytes[4 * j + 3]
  }

  function PutWord(b: Blk, j: int, w: int): (r: Blk)
    requires 0 <= j < NINDIRECT && |b.bytes| == BSIZE
    ensures |r.bytes| == BSIZE
  {
    Blk(b.bytes[4 * j := w % 0x100][4 * j + 1 := w / 0x100 % 0x100]
          [4 * j + 2 := w / 0x1_0000 % 0x100][4 * j + 3 := w / 0x100_0000 % 0x100])
  }

  /** The least significant byte comes first. */
  lemma LittleEndian(b: Blk, j: int)
    requires 0 <= j < NINDIRECT && ValidBlk(b)
    ensures Word(b, j) % 0x100 == b.bytes[4 * j] && Word(b, j) / 0x100 % 0x100 == b.bytes[4 * j + 1]
    ensures Word(b, j) / 0x1_0000 % 0x100 == b.bytes[4 * j + 2] && Word(b, j) / 0x100_0000 == b.bytes[4 * j + 3]
  {
    var p, q, r, s := b.bytes[4 * j], b.bytes[4 * j + 1], b.bytes[4 * j + 2], b.bytes[4 * j + 3];
    Digits(p, q, r, s);
  }

  lemma Digits(p: int, q: int, r: int, s: int)
    requires 0 <= p < 256 && 0 <= q < 256 && 0 <= r < 256 && 0 <= s < 256
    ensures var w := p + 0x100 * q + 0x1_0000 * r + 0x100_0000 * s;
      && w % 0x100 == p && w / 0x100 % 0x100 == q && w / 0x1_0000 % 0x100 == r && w / 0x100_0000 == s
  {
    var x := q + 0x100 * (r + 0x100 * s);
    assert p + 0x100 * q + 0x1_0000 * r + 0x100_0000 * s == p + 0x100 * x;
  }

  lemma WordRoundTrip(b: Blk, j: int, w: int, k: int)
    requires 0 <= j < NINDIRECT && 0 <= k < NINDIRECT && ValidBlk(b) && 0 <= w < UINT
    ensures ValidBlk(PutWord(b, j, w))
    ensures Word(PutWord(b, j, w), k) == if k == j then w else Word(b, k)
  {
    BytesOf(w);
  }

  lemma BytesOf(w: int)
    requires 0 <= w < UINT
    ensures w == w % 0x100 + 0x100 * (w / 0x100 % 0x100) + 0x1_0000 * (w / 0x1_0000 % 0x100)
               + 0x100_0000 * (w / 0x100_0000 % 0x100)
  {
    var a := w / 0x100;
    var b := a / 0x100;
    assert w / 0x1_0000 == b;
    assert w / 0x100_0000 == b / 0x100;
  }

  lemma ZeroWords(j: int)
    requires 0 <= j < NINDIRECT
    ensures ValidBlk(Zero()) && Word(Zero(), j) == 0 && forall k | 0 <= k < BSIZE :: Zero().bytes[k] == 0
  {
  }

  // ----- the file system -----

  datatype Inode = Inode(size: int, addrs: seq<int>)

  /** `ino` are the in-memory inodes, `dino` the copies that iupdate writes. */
  datatype Fs = Fs(bits: seq<bool>, blk: seq<Blk>, ino: seq<Inode>, dino: seq<Inode>)

  /** Slot k of an inode: 0..11 direct, 12 the indirect block, 13..140 its entries. */
  const SLOTS: int := NDIRECT + 1 + NINDIRECT

  predicate Shape(sb: Super, fs: Fs) {
    && ValidSuper(sb)
    && |fs.bits| == |fs.blk| == sb.size
    && |fs.ino| == |fs.dino| == sb.ninodes
    && (forall b | 0 <= b < sb.size :: ValidBlk(fs.blk[b]))
    && (forall i | 0 <= i < sb.ninodes :: |fs.ino[i].addrs| == NDIRECT + 1)
    && (forall i | 0 <= i < sb.ninodes :: 0 <= fs.ino[i].addrs[NDIRECT] < sb.size)
  }

  predicate IsSlot(sb: Super, i: int, k: int) { 0 <= i < sb.ninodes && 0 <= k < SLOTS }

  /** The block number in slot k of inode i, 0 if there is none. */
  function Slot(sb: Super, fs: Fs, i: int, k: int): int
    requires Shape(sb, fs) && IsSlot(sb, i, k)
  {
    if k <= NDIRECT then fs.ino[i].addrs[k]
    else if fs.ino[i].addrs[NDIRECT] == 0 then 0
    else Word(fs.blk[fs.ino[i].addrs[NDIRECT]], k - NDIRECT - 1)
  }

  /** The slot of the bn-th data block. */
  function DataSlot(bn: int): int { if bn < NDIRECT then bn else bn + 1 }

  datatype Owner = Free | Reserved | Own(i: int, k: int)

  /** Every pointer names the one block that its slot owns, every owned block is pointed to, and
      the bitmap marks exactly the blocks that are not free.  Entries of inode t's indirect block
      before `cut` do not count: itrunc has freed them without erasing them. */
  ghost predicate OwnedUpTo(sb: Super, fs: Fs, own: seq<Owner>, t: int, cut: int) {
    && Shape(sb, fs) && |own| == sb.size
    && (forall i, k | IsSlot(sb, i, k) && Slot(sb, fs, i, k) != 0 && !Dead(i, k, t, cut) ::
          0 < Slot(sb, fs, i, k) < sb.size && own[Slot(sb, fs, i, k)] == Own(i, k))
    && (forall b | 0 <= b < sb.size && own[b].Own? ::
          IsSlot(sb, own[b].i, own[b].k) && !Dead(own[b].i, own[b].k, t, cut)
          && Slot(sb, fs, own[b].i, own[b].k) == b)
    && (forall b | 0 <= b < sb.size :: fs.bits[b] <==> own[b] != Free)
    && (forall b | 0 <= b < sb.data :: own[b] == Reserved)
  }

  predicate Dead(i: int, k: int, t: int, cut: int) { i == t && NDIRECT < k <= NDIRECT + cut }

  ghost predicate Owned(sb: Super, fs: Fs, own: seq<Owner>) { OwnedUpTo(sb, fs, own, 0, 0) }

  function NBlocks(size: int): int { (size + BSIZE - 1) / BSIZE }

  /** Inode i has its first n data blocks and no others, and an indirect block iff it needs one. */
  ghost predicate Dense(sb: Super, fs: Fs, i: int, n: int)
    requires Shape(sb, fs) && 0 <= i < sb.ninodes
  {
    && (forall bn | 0 <= bn < MAXFILE :: Slot(sb, fs, i, DataSlot(bn)) != 0 <==> bn < n)
    && (fs.ino[i].addrs[NDIRECT] != 0 <==> NDIRECT < n)
  }

  /** Between operations: ownership, no holes, and the disk inodes are up to date. */
  ghost predicate Inv(sb: Super, fs: Fs, own: seq<Owner>) {
    && Owned(sb, fs, own)
    && (forall i | 0 <= i < sb.ninodes ::
          0 <= fs.ino[i].size <= MAXFILE * BSIZE && Dense(sb, fs, i, NBlocks(fs.ino[i].size)))
    && fs.dino == fs.ino
  }

  // ----- giving a block to a slot -----

  function SetAddr(n: Inode, k: int, b: int): Inode
    requires 0 <= k < |n.addrs|
  {
    n.(addrs := n.addrs[k := b])
  }

  /** balloc of block b, with its zeroing. */
  function Claim(fs: Fs, b: int): Fs
    requires 0 <= b < |fs.bits| && b < |fs.blk|
  {
    fs.(bits := fs.bits[b := true], blk := fs.blk[b := Zero()])
  }

  /** Store b in slot (i, k). */
  function Point(sb: Super, fs: Fs, i: int, k: int, b: int): Fs
    requires Shape(sb, fs) && IsSlot(sb, i, k)
  {
    if k <= NDIRECT then fs.(ino := fs.ino[i := SetAddr(fs.ino[i], k, b)])
    else
      var ind := fs.ino[i].addrs[NDIRECT];
      fs.(blk := fs.blk[ind := PutWord(fs.blk[ind], k - NDIRECT - 1, b)])
  }

  ghost predicate CanGive(sb: Super, fs: Fs, own: seq<Owner>, i: int, k: int, b: int) {
    && Owned(sb, fs, own) && IsSlot(sb, i, k) && 0 <= b < sb.size && own[b] == Free
    && Slot(sb, fs, i, k) == 0 && (NDIRECT < k ==> fs.ino[i].addrs[NDIRECT] != 0)
  }

  lemma ClaimShape(sb: Super, fs: Fs, b: int)
    requires Shape(sb, fs) && 0 <= b < sb.size
    ensures Shape(sb, Claim(fs, b))
  {
  }

  lemma PointShape(sb: Super, fs: Fs, i: int, k: int, b: int)
    requires Shape(sb, fs) && IsSlot(sb, i, k) && 0 <= b < sb.size
    ensures Shape(sb, Point(sb, fs, i, k, b))
  {
  }

  /** Two inodes do not share an indirect block, and a free block is nobody's. */
  lemma IndirectOwned(sb: Super, fs: Fs, own: seq<Owner>, i: int)
    requires Owned(sb, fs, own) && 0 <= i < sb.ninodes && fs.ino[i].addrs[NDIRECT] != 0
    ensures own[fs.ino[i].addrs[NDIRECT]] == Own(i, NDIRECT)
  {
  }

  lemma ClaimSlot(sb: Super, fs: Fs, own: seq<Owner>, b: int, i: int, k: int)
    requires Owned(sb, fs, own) && 0 <= b < sb.size && own[b] == Free && IsSlot(sb, i, k)
    ensures Shape(sb, Claim(fs, b)) && Slot(sb, Claim(fs, b), i, k) == Slot(sb, fs, i, k)
  {
    hide Word;
    ClaimShape(sb, fs, b);
    if fs.ino[i].addrs[NDIRECT] != 0 { IndirectOwned(sb, fs, own, i); }
  }

  lemma PointDirect(sb: Super, f: Fs, i: int, k: int, b: int, i': int, k': int)
    requires Shape(sb, f) && IsSlot(sb, i, k) && IsSlot(sb, i', k') && k <= NDIRECT && 0 < b < sb.size
    requires f.blk[b] == Zero() && Slot(sb, f, i, k) == 0
    ensures Shape(sb, Point(sb, f, i, k, b))
    ensures Slot(sb, Point(sb, f, i, k, b), i', k') == if i' == i && k' == k then b else Slot(sb, f, i', k')
  {
  }

  lemma PointEntry(sb: Super, f: Fs, i: int, k: int, b: int, i': int, k': int)
    requires Shape(sb, f) && IsSlot(sb, i, k) && IsSlot(sb, i', k') && NDIRECT < k && 0 < b < sb.size
    requires f.ino[i].addrs[NDIRECT] != 0
    requires i' != i ==> f.ino[i'].addrs[NDIRECT] != f.ino[i].addrs[NDIRECT]
    ensures Shape(sb, Point(sb, f, i, k, b))
    ensures Slot(sb, Point(sb, f, i, k, b), i', k') == if i' == i && k' == k then b else Slot(sb, f, i', k')
  {
    PointShape(sb, f, i, k, b);
    if NDIRECT < k' {
      WordRoundTrip(f.blk[f.ino[i].addrs[NDIRECT]], k - NDIRECT - 1, b, k' - NDIRECT - 1);
    }
    hide Word, PutWord, ValidBlk;
  }

  /** Only the slot named changes, to b. */
  lemma GiveSlot(sb: Super, fs: Fs, own: seq<Owner>, i: int, k: int, b: int, i': int, k': int)
    requires CanGive(sb, fs, own, i, k, b) && IsSlot(sb, i', k') && b != 0
    ensures Shape(sb, Claim(fs, b)) && Shape(sb, Point(sb, Claim(fs, b), i, k, b))
    ensures Slot(sb, Point(sb, Claim(fs, b), i, k, b), i', k')
         == if i' == i && k' == k then b else Slot(sb, fs, i', k')
  {
    assert Shape(sb, fs);
    hide Word, PutWord, Owned, Zero, ValidBlk, Point;
    ClaimSlot(sb, fs, own, b, i', k');
    ClaimSlot(sb, fs, own, b, i, k);
    if k <= NDIRECT {
      PointDirect(sb, Claim(fs, b), i, k, b, i', k');
    } else {
      IndirectOwned(sb, fs, own, i);
      if fs.ino[i'].addrs[NDIRECT] != 0 { IndirectOwned(sb, fs, own, i'); }
      PointEntry(sb, Claim(fs, b), i, k, b, i', k');
    }
  }

  /** The slots after b has been put in slot (i, k). */
  ghost predicate OnlySlot(sb: Super, fs: Fs, f: Fs, i: int, k: int, b: int)
    requires Shape(sb, fs) && Shape(sb, f)
  {
    forall i', k' | IsSlot(sb, i', k') ::
      Slot(sb, f, i', k') == if i' == i && k' == k then b else Slot(sb, fs, i', k')
  }

  lemma GiveKeepsOwned(sb: Super, fs: Fs, own: seq<Owner>, i: int, k: int, b: int)
    requires CanGive(sb, fs, own, i, k, b)
    ensures b >= sb.data && Shape(sb, Claim(fs, b)) && Shape(sb, Point(sb, Claim(fs, b), i, k, b))
    ensures Owned(sb, Point(sb, Claim(fs, b), i, k, b), own[b := Own(i, k)])
    ensures OnlySlot(sb, fs, Point(sb, Claim(fs, b), i, k, b), i, k, b)
  {
    assert b >= sb.data;
    ClaimShape(sb, fs, b);
    PointShape(sb, Claim(fs, b), i, k, b);
    var f := Point(sb, Claim(fs, b), i, k, b);
    forall i', k' | IsSlot(sb, i', k')
      ensures Slot(sb, f, i', k') == if i' == i && k' == k then b else Slot(sb, fs, i', k')
    {
      GiveSlot(sb, fs, own, i, k, b, i', k');
    }
    GiveOwnership(sb, fs, f, own, i, k, b);
  }

  lemma GiveOwnership(sb: Super, fs: Fs, f: Fs, own: seq<Owner>, i: int, k: int, b: int)
    requires CanGive(sb, fs, own, i, k, b) && Shape(sb, f) && b >= sb.data
    requires f.bits == fs.bits[b := true] && OnlySlot(sb, fs, f, i, k, b)
    ensures Owned(sb, f, own[b := Own(i, k)])
  {
  }

  // ----- file contents -----

  /** Byte `off` of inode i, as readi would fetch it. */
  function ByteAt(sb: Super, fs: Fs, i: int, off: int): int
    requires Shape(sb, fs) && 0 <= i < sb.ninodes && 0 <= off < MAXFILE * BSIZE
  {
    var a := Slot(sb, fs, i, DataSlot(off / BSIZE));
    if 0 <= a < sb.size then fs.blk[a].bytes[off % BSIZE] else 0
  }

  function Contents(sb: Super, fs: Fs, i: int): seq<int>
    requires Shape(sb, fs) && 0 <= i < sb.ninodes && 0 <= fs.ino[i].size <= MAXFILE * BSIZE
  {
    seq(fs.ino[i].size, off requires 0 <= off < fs.ino[i].size => ByteAt(sb, fs, i, off))
  }

  /** Block by block, the contents of a file are the bytes of its data blocks in order. */
  lemma ContentsByBlock(sb: Super, fs: Fs, i: int, bn: int)
    requires Shape(sb, fs) && 0 <= i < sb.ninodes && 0 <= bn && (bn + 1) * BSIZE <= fs.ino[i].size <= MAXFILE * BSIZE
    ensures var a := if bn < NDIRECT then fs.ino[i].addrs[bn]
                     else if fs.ino[i].addrs[NDIRECT] == 0 then 0
                     else Word(fs.blk[fs.ino[i].addrs[NDIRECT]], bn - NDIRECT);
      0 <= a < sb.size ==> Contents(sb, fs, i)[bn * BSIZE..(bn + 1) * BSIZE] == fs.blk[a].bytes
  {
    hide Word;
    var a := Slot(sb, fs, i, DataSlot(bn));
    if 0 <= a < sb.size {
      forall o | 0 <= o < BSIZE
        ensures Contents(sb, fs, i)[bn * BSIZE + o] == fs.blk[a].bytes[o]
      {
        BlockOfByte(bn, o);
      }
    }
  }

  lemma BlockOfByte(bn: int, o: int)
    requires 0 <= o < BSIZE
    ensures (bn * BSIZE + o) / BSIZE == bn && (bn * BSIZE + o) % BSIZE == o
  {
  }

  /** Replacing what a data block holds leaves every pointer and the ownership alone. */
  lemma DataKeepsOwned(sb: Super, fs: Fs, own: seq<Owner>, b: int, data: Blk)
    requires Owned(sb, fs, own) && 0 <= b < sb.size && own[b].Own? && own[b].k != NDIRECT && ValidBlk(data)
    ensures var f := fs.(blk := fs.blk[b := data]);
      && Owned(sb, f, own)
      && forall i, k | IsSlot(sb, i, k) :: Slot(sb, f, i, k) == Slot(sb, fs, i, k)
  {
    hide Word;
    var f := fs.(blk := fs.blk[b := data]);
    forall i, k | IsSlot(sb, i, k)
      ensures Slot(sb, f, i, k) == Slot(sb, fs, i, k)
    {
      if fs.ino[i].addrs[NDIRECT] != 0 { IndirectOwned(sb, fs, own, i); }
    }
    SameSlotsOwned(sb, fs, f, own);
  }

  lemma SameSlotsOwned(sb: Super, fs: Fs, f: Fs, own: seq<Owner>)
    requires Owned(sb, fs, own) && Shape(sb, f) && f.bits == fs.bits
    requires forall i, k | IsSlot(sb, i, k) :: Slot(sb, f, i, k) == Slot(sb, fs, i, k)
    ensures Owned(sb, f, own)
  {
  }

  // ----- taking blocks back -----

  /** bfree of the block in a slot held by the inode itself, and clearing the slot. */
  function Drop(fs: Fs, i: int, k: int): Fs
    requires 0 <= i < |fs.ino| && 0 <= k < |fs.ino[i].addrs| && 0 <= fs.ino[i].addrs[k] < |fs.bits|
  {
    fs.(bits := fs.bits[fs.ino[i].addrs[k] := false], ino := fs.ino[i := SetAddr(fs.ino[i], k, 0)])
  }

  lemma DropDirect(sb: Super, fs: Fs, own: seq<Owner>, i: int, k: int)
    requires Owned(sb, fs, own) && 0 <= i < sb.ninodes && 0 <= k < NDIRECT && fs.ino[i].addrs[k] != 0
    ensures 0 <= fs.ino[i].addrs[k] < sb.size && fs.bits[fs.ino[i].addrs[k]]
    ensures own[fs.ino[i].addrs[k]] == Own(i, k)
    ensures Owned(sb, Drop(fs, i, k), own[fs.ino[i].addrs[k] := Free])
  {
    hide Word;
    var b := fs.ino[i].addrs[k];
    assert IsSlot(sb, i, k) && Slot(sb, fs, i, k) == b && !Dead(i, k, 0, 0);
    var f := Drop(fs, i, k);
    assert Shape(sb, f);
    assert OnlySlot(sb, fs, f, i, k, 0);
    TakeOwnership(sb, fs, f, own, i, k, 0, 0, 0);
  }

  /** Ownership after slot (i, k) has given up its block, in general: either the slot is cleared,
      or it is the next entry that stops counting. */
  lemma TakeOwnership(sb: Super, fs: Fs, f: Fs, own: seq<Owner>, i: int, k: int, t: int, cut: int, cut': int)
    requires OwnedUpTo(sb, fs, own, t, cut) && Shape(sb, f) && IsSlot(sb, i, k) && 0 <= cut
    requires Slot(sb, fs, i, k) != 0 && !Dead(i, k, t, cut)
    requires f.bits == fs.bits[Slot(sb, fs, i, k) := false]
    requires (cut' == cut && OnlySlot(sb, fs, f, i, k, 0))
          || (cut' == cut + 1 && i == t && k == NDIRECT + cut' && OnlySlot(sb, fs, f, i, k, Slot(sb, fs, i, k)))
    ensures OwnedUpTo(sb, f, own[Slot(sb, fs, i, k) := Free], t, cut')
  {
    hide Slot;
  }

  /** bfree of entry `cut` of t's indirect block. */
  lemma DropEntry(sb: Super, fs: Fs, own: seq<Owner>, t: int, cut: int)
    requires OwnedUpTo(sb, fs, own, t, cut) && 0 <= t < sb.ninodes && 0 <= cut < NINDIRECT
    requires fs.ino[t].addrs[NDIRECT] != 0
    ensures var b := Word(fs.blk[fs.ino[t].addrs[NDIRECT]], cut);
      && (b == 0 ==> OwnedUpTo(sb, fs, own, t, cut + 1))
      && (b != 0 ==>
            && 0 <= b < sb.size && fs.bits[b] && own[b] == Own(t, NDIRECT + 1 + cut)
            && OwnedUpTo(sb, fs.(bits := fs.bits[b := false]), own[b := Free], t, cut + 1))
  {
    hide Word;
    var k := NDIRECT + 1 + cut;
    var b := Word(fs.blk[fs.ino[t].addrs[NDIRECT]], cut);
    assert IsSlot(sb, t, k) && Slot(sb, fs, t, k) == b && !Dead(t, k, t, cut);
    if b != 0 {
      var f := fs.(bits := fs.bits[b := false]);
      assert Shape(sb, f);
      assert OnlySlot(sb, fs, f, t, k, b);
      TakeOwnership(sb, fs, f, own, t, k, t, cut, cut + 1);
    }
  }

  /** bfree of the indirect block itself, after all its entries. */
  lemma DropIndirect(sb: Super, fs: Fs, own: seq<Owner>, t: int)
    requires OwnedUpTo(sb, fs, own, t, NINDIRECT) && 0 <= t < sb.ninodes && fs.ino[t].addrs[NDIRECT] != 0
    ensures var b := fs.ino[t].addrs[NDIRECT];
      && fs.bits[b] && own[b] == Own(t, NDIRECT) && Owned(sb, Drop(fs, t, NDIRECT), own[b := Free])
  {
  }

  /** With no indirect block there is nothing left to cut. */
  lemma NoIndirect(sb: Super, fs: Fs, own: seq<Owner>, t: int)
    requires Owned(sb, fs, own)
    ensures OwnedUpTo(sb, fs, own, t, 0)
  {
  }
}
