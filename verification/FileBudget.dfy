/** How many distinct blocks one writei can log, and why filewrite's chunk fits the log budget. */
module FileBudget {
  import opened FileBlocks
  import opened SetFacts
  import opened Params

  /** The chunk of filewrite: ((MAXOPBLOCKS-1-1-2) / 2) * 512. */
  const CHUNK: int := (MAXOPBLOCKS - 1 - 1 - 2) / 2 * BSIZE

  /** Data blocks that n bytes at `off` touch. */
  function Touched(off: int, n: int): int { if n <= 0 then 0 else NBlocks(off + n) - off / BSIZE }

  function Max(a: int, b: int): int { if a < b then b else a }

  /** Data blocks the file has once it reaches to `end`. */
  function Reach(size: int, end: int): int { Max(NBlocks(size), NBlocks(end)) }

  /** Blocks that have to be allocated to get there, the indirect block included. */
  function Fresh(size: int, end: int): int {
    Reach(size, end) - NBlocks(size)
    + (if NBlocks(size) <= NDIRECT < Reach(size, end) then 1 else 0)
  }

  /** Data, bitmap, indirect and inode blocks. */
  function Cost(size: int, off: int, n: int): int {
    Touched(off, n) + Fresh(size, off + n)
    + (if Reach(size, off + n) > NDIRECT then 1 else 0)
    + (if off + n > size then 1 else 0)
  }

  /** Any chunk, at any alignment, growing the file or not, crossing into the indirect range or
      not: because a file has no holes, at most three of the four blocks it can touch are new. */
  lemma ChunkFits(size: int, off: int, n: int)
    requires 0 <= off <= size && 0 <= n <= CHUNK
    ensures Cost(size, off, n) <= MAXOPBLOCKS
  {
    assert NBlocks(off + n) <= NBlocks(off) + 3;
    assert NBlocks(off) <= NBlocks(size);
    assert NBlocks(off) - off / BSIZE <= 1;
  }

  /** The budget is met exactly, and one more block per chunk would break it. */
  lemma ChunkIsLargest()
    ensures Cost(5121, 5121, CHUNK) == MAXOPBLOCKS
    ensures Cost(5121, 5121, CHUNK + BSIZE) > MAXOPBLOCKS
  {
  }

  // ----- which blocks are logged -----

  /** Blocks only change hands by being allocated. */
  ghost predicate Grew(own0: seq<Owner>, own: seq<Owner>) {
    |own| == |own0| && forall x | 0 <= x < |own0| && own0[x] != Free :: own[x] == own0[x]
  }

  ghost function NewBlocks(own0: seq<Owner>, own: seq<Owner>): set<int> {
    set x | 0 <= x < |own0| && x < |own| && own0[x] == Free && own[x] != Free
  }

  ghost function FreeBlocks(own: seq<Owner>): set<int> { set x | 0 <= x < |own| && own[x] == Free }

  ghost function Bitmaps(sb: Super, s: set<int>): set<int> { set x | x in s :: BBlock(sb, x) }

  /** The block of indirect entries, if s has a block that is named by one. */
  ghost function EntriesOf(own: seq<Owner>, s: set<int>, ind: int): set<int> {
    set x | x in s && 0 <= x < |own| && own[x].Own? && own[x].k > NDIRECT :: ind
  }

  /** What allocating blocks logs: the new blocks, zeroed, their bitmap blocks, and the indirect block
      when it gets an entry. */
  ghost function AllocLog(sb: Super, own0: seq<Owner>, own: seq<Owner>, ind: int): set<int> {
    NewBlocks(own0, own) + Bitmaps(sb, NewBlocks(own0, own)) + EntriesOf(own, NewBlocks(own0, own), ind)
  }

  lemma NothingNew(sb: Super, own: seq<Owner>, ind: int)
    ensures Grew(own, own) && NewBlocks(own, own) == {} && AllocLog(sb, own, own, ind) == {}
  {
  }

  lemma OneNew(sb: Super, own: seq<Owner>, b: int, o: Owner, ind: int)
    requires 0 <= b < |own| && own[b] == Free && o.Own?
    ensures Grew(own, own[b := o]) && NewBlocks(own, own[b := o]) == {b}
    ensures AllocLog(sb, own, own[b := o], ind) == {BBlock(sb, b), b} + (if o.k > NDIRECT then {ind} else {})
  {
    var s := NewBlocks(own, own[b := o]);
    assert s == {b};
    assert Bitmaps(sb, s) == {BBlock(sb, b)};
    assert EntriesOf(own[b := o], s, ind) == if o.k > NDIRECT then {ind} else {};
  }

  /** Allocations one after the other. */
  lemma NewAdds(a: seq<Owner>, b: seq<Owner>, c: seq<Owner>)
    requires Grew(a, b) && Grew(b, c)
    ensures Grew(a, c) && NewBlocks(a, c) == NewBlocks(a, b) + NewBlocks(b, c)
    ensures |NewBlocks(a, c)| == |NewBlocks(a, b)| + |NewBlocks(b, c)|
  {
    assert NewBlocks(a, c) == NewBlocks(a, b) + NewBlocks(b, c);
    assert NewBlocks(a, b) * NewBlocks(b, c) == {};
  }

  lemma AllocLogAdds(sb: Super, a: seq<Owner>, b: seq<Owner>, c: seq<Owner>, ind1: int, ind: int)
    requires Grew(a, b) && Grew(b, c)
    requires ind1 == ind || forall x | x in NewBlocks(a, b) :: !(b[x].Own? && b[x].k > NDIRECT)
    ensures AllocLog(sb, a, c, ind) == AllocLog(sb, a, b, ind1) + AllocLog(sb, b, c, ind)
  {
    NewAdds(a, b, c);
    var s, t := NewBlocks(a, b), NewBlocks(b, c);
    assert Bitmaps(sb, s + t) == Bitmaps(sb, s) + Bitmaps(sb, t);
    assert EntriesOf(c, s + t, ind) == EntriesOf(b, s, ind1) + EntriesOf(c, t, ind);
  }

  /** From own0 to own exactly `count` blocks were allocated, all of them to inode i, and exactly what
      that takes was logged; ind is the inode's indirect block afterwards, 0 if it has none. */
  ghost predicate Allocated(sb: Super, own0: seq<Owner>, own: seq<Owner>, before: set<int>, after: set<int>,
                            ind: int, i: int, count: int) {
    && Grew(own0, own) && |NewBlocks(own0, own)| == count
    && (forall x | x in NewBlocks(own0, own) :: own[x].Own? && own[x].i == i && (ind == 0 ==> own[x].k <= NDIRECT))
    && after == before + AllocLog(sb, own0, own, ind)
  }

  lemma AllocatedNone(sb: Super, own: seq<Owner>, before: set<int>, ind: int, i: int)
    ensures Allocated(sb, own, own, before, before, ind, i, 0)
  {
    NothingNew(sb, own, ind);
  }

  lemma AllocatedOne(sb: Super, own: seq<Owner>, before: set<int>, after: set<int>, ind: int, i: int, k: int, b: int)
    requires 0 <= b < |own| && own[b] == Free && (ind == 0 ==> k <= NDIRECT)
    requires after == before + {BBlock(sb, b), b} + (if k > NDIRECT then {ind} else {})
    ensures Allocated(sb, own, own[b := Own(i, k)], before, after, ind, i, 1)
  {
    OneNew(sb, own, b, Own(i, k), ind);
  }

  lemma AllocatedMore(sb: Super, a: seq<Owner>, b: seq<Owner>, c: seq<Owner>, before: set<int>, mid: set<int>,
                      after: set<int>, ind1: int, ind: int, i: int, c1: int, c2: int)
    requires Allocated(sb, a, b, before, mid, ind1, i, c1) && Allocated(sb, b, c, mid, after, ind, i, c2)
    requires ind1 == 0 || ind == ind1
    ensures Allocated(sb, a, c, before, after, ind, i, c1 + c2)
  {
    hide AllocLog;
    NewAdds(a, b, c);
    AllocLogAdds(sb, a, b, c, ind1, ind);
  }

  /** On a full disk every block that was free has been allocated. */
  lemma AllTaken(own0: seq<Owner>, own: seq<Owner>)
    requires Grew(own0, own) && forall x | 0 <= x < |own| :: own[x] != Free
    ensures NewBlocks(own0, own) == FreeBlocks(own0)
  {
  }

  lemma NewWereFree(own0: seq<Owner>, own: seq<Owner>)
    ensures |NewBlocks(own0, own)| <= |FreeBlocks(own0)|
  {
    SubsetBound(NewBlocks(own0, own), FreeBlocks(own0));
  }

  lemma FreeAfter(own0: seq<Owner>, own: seq<Owner>)
    requires Grew(own0, own)
    ensures |FreeBlocks(own)| == |FreeBlocks(own0)| - |NewBlocks(own0, own)|
  {
    assert FreeBlocks(own0) == FreeBlocks(own) + NewBlocks(own0, own);
    assert FreeBlocks(own) * NewBlocks(own0, own) == {};
  }

  /** Growing a file to `a` and then to `b` takes what growing it to `b` takes. */
  lemma FreshSplit(size: int, a: int, b: int)
    requires 0 <= size && 0 <= a <= b
    ensures Fresh(size, a) + Fresh(Max(size, a), b) == Fresh(size, b) && Fresh(size, a) <= Fresh(size, b)
    ensures a <= size ==> Fresh(size, a) == 0
  {
  }

  /** The number of bitmap blocks on the disk. */
  function NBitmaps(sb: Super): int { (sb.size - 1) / BPB + 1 }

  /** The bitmap blocks that hold the bits of inode i's blocks. */
  ghost function MapBlocks(sb: Super, own: seq<Owner>, i: int): set<int> {
    set x | 0 <= x < |own| && own[x].Own? && own[x].i == i :: BBlock(sb, x)
  }

  /** Freeing a block of inode i takes its bitmap block off what is still to be logged. */
  lemma FreeOne(sb: Super, own: seq<Owner>, i: int, k: int, b: int)
    requires 0 <= b < |own| && own[b] == Own(i, k)
    ensures MapBlocks(sb, own, i) == MapBlocks(sb, own[b := Free], i) + {BBlock(sb, b)}
  {
    var own' := own[b := Free];
    forall y | y in MapBlocks(sb, own, i)
      ensures y in MapBlocks(sb, own', i) + {BBlock(sb, b)}
    {
      var x :| 0 <= x < |own| && own[x].Own? && own[x].i == i && BBlock(sb, x) == y;
      if x != b { assert own'[x].Own? && own'[x].i == i; }
    }
    forall y | y in MapBlocks(sb, own', i)
      ensures y in MapBlocks(sb, own, i)
    {
      var x :| 0 <= x < |own'| && own'[x].Own? && own'[x].i == i && BBlock(sb, x) == y;
      assert own[x].Own? && own[x].i == i;
    }
  }

  lemma AllFreed(sb: Super, own0: seq<Owner>, own: seq<Owner>, i: int)
    requires |own| == |own0|
    requires forall x | 0 <= x < |own0| :: own[x] == if own0[x].Own? && own0[x].i == i then Free else own0[x]
    ensures MapBlocks(sb, own, i) == {}
  {
  }

  lemma MapBlocksBound(sb: Super, own: seq<Owner>, i: int)
    requires |own| == sb.size
    ensures |MapBlocks(sb, own, i)| <= NBitmaps(sb) || sb.size <= 0
  {
    if sb.size > 0 {
      RangeBound(MapBlocks(sb, own, i), sb.bmapstart, sb.bmapstart + NBitmaps(sb));
    }
  }

  /** The bound on what truncating a file logs, all bitmap blocks and the inode's, fits one operation
      while the disk has no more than nine bitmap blocks. */
  lemma TruncFitsIff(sb: Super)
    requires 0 < sb.size
    ensures NBitmaps(sb) + 1 <= MAXOPBLOCKS <==> sb.size <= (MAXOPBLOCKS - 1) * BPB
  {
  }

  /** Writing c[off..off+|s|] over, extending c if need be. */
  function Splice(c: seq<int>, off: int, s: seq<int>): seq<int>
    requires 0 <= off <= |c|
  {
    c[..off] + s + (if off + |s| < |c| then c[off + |s|..] else [])
  }

  lemma SpliceTwice(c: seq<int>, off: int, a: seq<int>, b: seq<int>)
    requires 0 <= off <= |c|
    ensures Splice(Splice(c, off, a), off + |a|, b) == Splice(c, off, a + b)
  {
  }

  /** What was written is what is read back, and nothing else moved. */
  lemma SpliceReads(c: seq<int>, off: int, s: seq<int>)
    requires 0 <= off <= |c|
    ensures var r := Splice(c, off, s);
      && |r| == Max(|c|, off + |s|) && r[off..off + |s|] == s
      && r[..off] == c[..off] && (off + |s| <= |c| ==> r[off + |s|..] == c[off + |s|..])
  {
  }

  /** One iteration of writei's loop: at most one more block, with these invariants in play. */
  lemma OneMoreBlock(size: int, off: int, tot: int, m: int)
    requires 0 <= off <= size && 0 <= tot && 0 < m <= BSIZE - (off + tot) % BSIZE
    requires 0 < tot ==> (off + tot) % BSIZE == 0
    ensures Touched(off, tot + m) == Touched(off, tot) + 1
    ensures var bn := (off + tot) / BSIZE;
      && bn <= Reach(size, off + tot)
      && Reach(size, off + tot + m) == Max(Reach(size, off + tot), bn + 1)
  {
  }
}
