/** A disk on which one chunk of filewrite logs every block of its budget. */
module FileTight {
  import opened Params
  import opened FileBlocks
  import opened FileBudget
  import opened FileWrites
  import opened FileSystem

  /** Four bitmap blocks, 2 to 5; the one inode in block 1; data from block 6 on. */
  function Disk(): Super { Super(4 * BPB, 1, 1, 2, 6) }

  /** One free block under each bitmap block. */
  predicate IsFree(x: int) { x == 17 || x == 5000 || x == 9000 || x == 13000 }

  /** The file has 5121 bytes: its last block, number 10, holds a single byte. */
  const SIZE: int := 5121

  function Addrs(): seq<int> { [6, 7, 8, 9, 10, 11, 12, 13, 14, 15, 16, 0, 0] }

  function Before(): Fs {
    Fs(seq(4 * BPB, x => !IsFree(x)), seq(4 * BPB, _ => Zero()), [Inode(SIZE, Addrs())], [Inode(SIZE, Addrs())])
  }

  /** Blocks 6 to 16 are the file's; the other blocks in use belong to nobody who can free them. */
  function Owners(): seq<Owner> {
    seq(4 * BPB, x => if IsFree(x) then Free else if 6 <= x <= 16 then Own(0, x - 6) else Reserved)
  }

  lemma BeforeShape()
    ensures Shape(Disk(), Before()) && |Owners()| == 4 * BPB
    ensures forall k | 0 <= k < SLOTS :: Slot(Disk(), Before(), 0, k) == if k <= 10 then k + 6 else 0
  {
    ZeroWords(0);
  }

  lemma BeforeIsValid()
    ensures Inv(Disk(), Before(), Owners())
  {
    hide Slot;
    BeforeShape();
    var sb, fs, own := Disk(), Before(), Owners();
    assert Dense(sb, fs, 0, 11) by {
      forall bn | 0 <= bn < MAXFILE
        ensures Slot(sb, fs, 0, DataSlot(bn)) != 0 <==> bn < 11
      {
      }
    }
    assert Owned(sb, fs, own);
  }

  lemma FreeAre()
    ensures FreeBlocks(Owners()) == {17, 5000, 9000, 13000} && |FreeBlocks(Owners())| == 4
    ensures Fresh(SIZE, SIZE + CHUNK) == 4
  {
    assert FreeBlocks(Owners()) == {17, 5000, 9000, 13000};
  }

  /** Every slot in use after the write, and who was given it. */
  lemma SlotIsOwned(fs: Fs, own: seq<Owner>, bn: int)
    requires Inv(Disk(), fs, own) && |fs.ino| == 1 && 0 <= bn < NBlocks(fs.ino[0].size) && bn < MAXFILE
    ensures var x := Slot(Disk(), fs, 0, DataSlot(bn)); 0 < x < 4 * BPB == |own| && own[x] == Own(0, DataSlot(bn))
  {
    hide Slot;
    SlotInRange(Disk(), fs, own, 0, bn);
  }

  /** Appending one chunk to this file takes all four free blocks, and the operation logs ten: four
      data blocks, the four bitmap blocks, the indirect block and the inode's block. */
  lemma ChunkLogsTen(fs: Fs, own: seq<Owner>)
    requires Inv(Disk(), fs, own) && fs.ino[0].size == SIZE + CHUNK
    requires Grew(Owners(), own) && |NewBlocks(Owners(), own)| == Fresh(SIZE, SIZE + CHUNK)
    ensures var ind := fs.ino[0].addrs[NDIRECT];
      |DataOf(Disk(), fs, 0, SIZE, CHUNK) + AllocLog(Disk(), Owners(), own, ind) + {IBlock(Disk(), 0)}| == MAXOPBLOCKS
  {
    hide Slot, DataOf, AllocLog, Owners, NewBlocks, FreeBlocks, Inv, Grew;
    HasShape(fs, own);
    var sb, own0, ind := Disk(), Owners(), fs.ino[0].addrs[NDIRECT];
    FreeAre();
    SubsetIsAll(own0, own);
    SlotsAre(fs, own);
    var a, b, c, d := Slot(sb, fs, 0, 10), Slot(sb, fs, 0, 11), Slot(sb, fs, 0, 13), Slot(sb, fs, 0, 14);
    DataIs(fs, a, b, c, d);
    AllocIs(own, ind, c);
    TenBlocks(b, c, d, ind);
  }

  lemma HasShape(fs: Fs, own: seq<Owner>)
    requires Inv(Disk(), fs, own)
    ensures Shape(Disk(), fs) && |fs.ino| == 1 && |fs.ino[0].addrs| == NDIRECT + 1
  {
  }

  lemma SubsetIsAll(own0: seq<Owner>, own: seq<Owner>)
    requires |NewBlocks(own0, own)| == |FreeBlocks(own0)|
    ensures NewBlocks(own0, own) == FreeBlocks(own0)
  {
    var a, b := NewBlocks(own0, own), FreeBlocks(own0);
    NewWereFree(own0, own);
    assert |b - a| == |b| - |a| && b == a + (b - a);
  }

  /** The file's block 10 stays, and its three new data blocks and its indirect block are the free ones. */
  lemma SlotsAre(fs: Fs, own: seq<Owner>)
    requires Inv(Disk(), fs, own) && fs.ino[0].size == SIZE + CHUNK && Grew(Owners(), own)
    ensures Shape(Disk(), fs) && |own| == 4 * BPB && Slot(Disk(), fs, 0, 10) == 16
    ensures Slot(Disk(), fs, 0, 11) in NewBlocks(Owners(), own)
    ensures var c := Slot(Disk(), fs, 0, 13); c in NewBlocks(Owners(), own) && 0 <= c < |own| && own[c] == Own(0, 13)
    ensures Slot(Disk(), fs, 0, 14) in NewBlocks(Owners(), own) && fs.ino[0].addrs[NDIRECT] in NewBlocks(Owners(), own)
  {
    hide Slot, NewBlocks, Owners;
    assert NBlocks(SIZE + CHUNK) == 14;
    SlotIsOwned(fs, own, 11);
    SlotIsOwned(fs, own, 12);
    SlotIsOwned(fs, own, 13);
    IndirectUsed(fs, own);
    OldBlock(own);
    OldSlot(fs, own);
    NewSlot(own, Slot(Disk(), fs, 0, 11), 11);
    NewSlot(own, Slot(Disk(), fs, 0, 13), 13);
    NewSlot(own, Slot(Disk(), fs, 0, 14), 14);
    NewSlot(own, fs.ino[0].addrs[NDIRECT], NDIRECT);
  }

  lemma IndirectUsed(fs: Fs, own: seq<Owner>)
    requires Inv(Disk(), fs, own) && fs.ino[0].size == SIZE + CHUNK
    ensures 0 <= fs.ino[0].addrs[NDIRECT] < |own| == 4 * BPB && own[fs.ino[0].addrs[NDIRECT]] == Own(0, NDIRECT)
  {
    hide Slot;
    assert NBlocks(SIZE + CHUNK) == 14;
    IndirectOwned(Disk(), fs, own, 0);
  }

  lemma OldBlock(own: seq<Owner>)
    requires Grew(Owners(), own)
    ensures |own| == 4 * BPB && own[16] == Own(0, 10)
  {
    assert Owners()[16] == Own(0, 10);
  }

  lemma NewSlot(own: seq<Owner>, x: int, k: int)
    requires Grew(Owners(), own) && 0 <= x < |own| && own[x] == Own(0, k) && k > 10
    ensures x in NewBlocks(Owners(), own)
  {
    assert Owners()[x] == if IsFree(x) then Free else if 6 <= x <= 16 then Own(0, x - 6) else Reserved;
  }

  lemma TenBlocks(b: int, c: int, d: int, ind: int)
    requires {b, c, d, ind} <= {17, 5000, 9000, 13000}
    ensures |{16, b, c, d} + {17, 5000, 9000, 13000, 2, 3, 4, 5, ind} + {1}| == 10
  {
    assert {16, b, c, d} + {17, 5000, 9000, 13000, 2, 3, 4, 5, ind} + {1} == {1, 2, 3, 4, 5, 16, 17, 5000, 9000, 13000};
  }

  lemma OldSlot(fs: Fs, own: seq<Owner>)
    requires Inv(Disk(), fs, own) && |own| == 4 * BPB && own[16] == Own(0, 10)
    ensures Slot(Disk(), fs, 0, 10) == 16
  {
    hide Slot;
  }

  lemma DataIs(fs: Fs, a: int, b: int, c: int, d: int)
    requires Shape(Disk(), fs) && a == Slot(Disk(), fs, 0, 10) && b == Slot(Disk(), fs, 0, 11)
    requires c == Slot(Disk(), fs, 0, 13) && d == Slot(Disk(), fs, 0, 14)
    ensures DataOf(Disk(), fs, 0, SIZE, CHUNK) == {a, b, c, d}
  {
    hide Slot;
    assert SIZE / BSIZE == 10 && Touched(SIZE, CHUNK) == 4;
    var s := DataOf(Disk(), fs, 0, SIZE, CHUNK);
    assert Slot(Disk(), fs, 0, DataSlot(10)) in s && Slot(Disk(), fs, 0, DataSlot(11)) in s;
    assert Slot(Disk(), fs, 0, DataSlot(12)) in s && Slot(Disk(), fs, 0, DataSlot(13)) in s;
    forall x | x in s
      ensures x in {a, b, c, d}
    {
      var bn :| 10 <= bn < 14 && 0 <= bn < MAXFILE && Slot(Disk(), fs, 0, DataSlot(bn)) == x;
    }
  }

  lemma AllocIs(own: seq<Owner>, ind: int, c: int)
    requires |own| == 4 * BPB && NewBlocks(Owners(), own) == {17, 5000, 9000, 13000}
    requires 0 <= c < |own| && own[c] == Own(0, 13) && c in NewBlocks(Owners(), own)
    ensures AllocLog(Disk(), Owners(), own, ind) == {17, 5000, 9000, 13000, 2, 3, 4, 5, ind}
  {
    var n := NewBlocks(Owners(), own);
    assert BBlock(Disk(), 17) == 2 && BBlock(Disk(), 5000) == 3 && BBlock(Disk(), 9000) == 4
      && BBlock(Disk(), 13000) == 5;
    assert Bitmaps(Disk(), n) == {2, 3, 4, 5};
    assert EntriesOf(own, n, ind) == {ind};
  }

  /** Any file system in this state shows that the budget is tight: the chunk is written, and logs
      exactly as many blocks as an operation may. */
  method TightChunk(fsys: FileSys, src: seq<int>) returns (stop: bool, r: int)
    requires fsys.Valid() && fsys.sb == Disk() && fsys.Abs() == Before() && fsys.own == Owners() && fsys.logged == {}
    requires |src| == CHUNK && forall j | 0 <= j < CHUNK :: 0 <= src[j] < 256
    modifies fsys
    ensures !stop && r == CHUNK && |fsys.logged| == MAXOPBLOCKS
  {
    hide Slot, Inv, Contents, DataOf, AllocLog, FreeBlocks, NewBlocks;
    FreeAre();
    stop, r := fsys.Writei(0, src, SIZE);
    SizeAfter(fsys, src);
    ChunkLogsTen(fsys.Abs(), fsys.own);
  }

  lemma SizeAfter(fsys: FileSys, src: seq<int>)
    requires |src| == CHUNK && fsys.sb == Disk() && fsys.Wrote(Before(), Owners(), {}, 0, src, SIZE)
    ensures Inv(Disk(), fsys.Abs(), fsys.own) && |fsys.ino| == 1 && fsys.ino[0].size == SIZE + CHUNK
  {
    hide Slot, ByteAt;
    assert |Contents(Disk(), fsys.Abs(), 0)| == fsys.ino[0].size;
    assert |Contents(Disk(), Before(), 0)| == SIZE;
  }

  // ----- a truncation that no operation can log -----

  /** Ten bitmap blocks, 2 to 11, on a disk of one inode. */
  function WideDisk(): Super { Super(10 * BPB, 1, 1, 2, 12) }

  /** The last block under each bitmap block is the file's; the others are free. */
  predicate IsWide(x: int) { x % BPB == BPB - 1 }

  function WideAddrs(): seq<int> { seq(NDIRECT + 1, k => if 0 <= k < 10 then k * BPB + BPB - 1 else 0) }

  function Wide(): Fs {
    var n := Inode(10 * BSIZE, WideAddrs());
    Fs(seq(10 * BPB, x => x < 12 || IsWide(x)), seq(10 * BPB, _ => Zero()), [n], [n])
  }

  function WideOwners(): seq<Owner> {
    seq(10 * BPB, x => if x < 12 then Reserved else if IsWide(x) then Own(0, x / BPB) else Free)
  }

  lemma WideShape()
    ensures Shape(WideDisk(), Wide()) && |WideOwners()| == 10 * BPB
    ensures forall k | 0 <= k < SLOTS :: Slot(WideDisk(), Wide(), 0, k) == if k < 10 then k * BPB + BPB - 1 else 0
  {
    ZeroWords(0);
  }

  lemma WideEntries()
    ensures |WideOwners()| == |Wide().bits| == 10 * BPB && |Wide().ino| == 1 && Wide().dino == Wide().ino
    ensures Wide().ino[0].size == 10 * BSIZE && |Wide().ino[0].addrs| == NDIRECT + 1
    ensures Wide().ino[0].addrs[NDIRECT] == 0
    ensures forall b | 0 <= b < 10 * BPB :: Wide().bits[b] <==> WideOwners()[b] != Free
    ensures forall b | 0 <= b < 12 :: WideOwners()[b] == Reserved
  {
  }

  lemma WideOwned()
    ensures |WideOwners()| == 10 * BPB
    ensures forall k | 0 <= k < 10 :: WideOwners()[k * BPB + BPB - 1] == Own(0, k)
    ensures forall b | 0 <= b < 10 * BPB && WideOwners()[b].Own? ::
      var o := WideOwners()[b]; o.i == 0 && 0 <= o.k < 10 && o.k * BPB + BPB - 1 == b
  {
    forall k | 0 <= k < 10
      ensures WideOwners()[k * BPB + BPB - 1] == Own(0, k)
    {
      WideBlock(k * BPB + BPB - 1, k);
    }
    forall b | 0 <= b < 10 * BPB && WideOwners()[b].Own?
      ensures var o := WideOwners()[b]; o.i == 0 && 0 <= o.k < 10 && o.k * BPB + BPB - 1 == b
    {
      WideBlock(b, b / BPB);
    }
  }

  lemma WideBlock(b: int, k: int)
    requires 0 <= b < 10 * BPB
    ensures WideOwners()[b] == if b < 12 then Reserved else if IsWide(b) then Own(0, b / BPB) else Free
    ensures b == k * BPB + BPB - 1 <==> IsWide(b) && b / BPB == k
  {
  }

  lemma WideIsValid()
    ensures Inv(WideDisk(), Wide(), WideOwners())
  {
    hide Slot, Wide, WideOwners;
    WideShape();
    WideEntries();
    WideOwned();
    var sb, fs, own := WideDisk(), Wide(), WideOwners();
    assert Dense(sb, fs, 0, 10) by {
      forall bn | 0 <= bn < MAXFILE
        ensures Slot(sb, fs, 0, DataSlot(bn)) != 0 <==> bn < 10
      {
      }
    }
    assert Owned(sb, fs, own);
  }

  /** Its ten blocks have their bits in ten bitmap blocks. */
  lemma WideBitmaps()
    ensures MapBlocks(WideDisk(), WideOwners(), 0) == {2, 3, 4, 5, 6, 7, 8, 9, 10, 11}
  {
    var s := MapBlocks(WideDisk(), WideOwners(), 0);
    forall y | 2 <= y < 12
      ensures y in s
    {
      var x := (y - 2) * BPB + BPB - 1;
      assert WideOwners()[x] == Own(0, y - 2) && BBlock(WideDisk(), x) == y;
    }
  }

  /** Truncating this file logs one block more than an operation may. */
  method TruncLogsEleven(fsys: FileSys) returns (ok: bool)
    requires fsys.Valid() && fsys.sb == WideDisk() && fsys.Abs() == Wide() && fsys.own == WideOwners()
    requires fsys.logged == {}
    modifies fsys
    ensures ok && |fsys.logged| == MAXOPBLOCKS + 1
  {
    hide Slot, Inv, Contents, MapBlocks;
    WideBitmaps();
    ok := fsys.Itrunc(0);
    assert fsys.logged == {2, 3, 4, 5, 6, 7, 8, 9, 10, 11} + {1};
  }
}
