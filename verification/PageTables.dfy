/** Two-level page tables over a frame free list (vm.c, kalloc.c), as values.  Frames and virtual
    pages are counted in pages of 4096 bytes; `owner` says what each frame is used for. */
module PageTables {

  const PGSIZE: int := 4096
  const KERNBASE: int := 0x8000_0000
  const KPAGE: int := 0x8_0000
  const NPAGES: int := 0x10_0000
  const PHYSTOP: int := 0xE000

  datatype Flags = Flags(w: bool, u: bool)

  /** A directory or page table entry. */
  datatype Pte = Pte(present: bool, flags: Flags, frame: int)

  const NIL := Pte(false, Flags(false, false), 0)
  const WU := Flags(true, true)

  type Page = seq<int>

  function ZeroTable(): (z: seq<Pte>)
    ensures |z| == 1024 && forall i | 0 <= i < 1024 :: z[i] == NIL
  {
    seq(1024, _ => NIL)
  }

  /** memset of a whole page. */
  function Filled(b: int): Page { seq(PGSIZE, _ => b) }

  /** What a frame is used for; `Held` is a frame some part of the kernel got from kalloc. */
  datatype Role = Free | Held | Dir | Table(d: int, x: int) | User(d: int, v: int)

  /** The free list, the entries of the frames used as tables, the bytes of the other frames; `first`
      is the first frame after the kernel. */
  datatype Mem = Mem(free: seq<int>, tabs: map<int, seq<Pte>>, data: map<int, Page>, owner: map<int, Role>, first: int)

  /** A frame that kfree takes: after the kernel and below the top of physical memory. */
  predicate InPool(m: Mem, f: int) { 0 < m.first <= f < PHYSTOP }

  ghost predicate IsTab(m: Mem, t: int) { t in m.tabs && |m.tabs[t]| == 1024 }

  ghost predicate Is(m: Mem, f: int, r: Role) { f in m.owner && m.owner[f] == r }

  /** What the hardware finds for virtual page v under directory d. */
  ghost function Lookup(m: Mem, d: int, v: int): Pte
    requires 0 <= v < NPAGES
  {
    if && IsTab(m, d) && m.tabs[d][v / 1024].present && IsTab(m, m.tabs[d][v / 1024].frame)
       && m.tabs[m.tabs[d][v / 1024].frame][v % 1024].present
    then m.tabs[m.tabs[d][v / 1024].frame][v % 1024] else NIL
  }

  ghost predicate DirOk(m: Mem, d: int) {
    IsTab(m, d) && forall x | 0 <= x < 1024 :: m.tabs[d][x].present ==> Is(m, m.tabs[d][x].frame, Table(d, x))
  }

  ghost predicate TableOk(m: Mem, t: int, d: int, x: int) {
    && 0 <= x < 1024 && Is(m, d, Dir) && IsTab(m, d) && m.tabs[d][x].present && m.tabs[d][x].frame == t && IsTab(m, t)
    && (x < 512 ==> forall y | 0 <= y < 1024 ::
       m.tabs[t][y].present ==> Is(m, m.tabs[t][y].frame, User(d, x * 1024 + y)))
  }

  ghost predicate UserOk(m: Mem, f: int, d: int, v: int) {
    && 0 <= v < KPAGE && Is(m, d, Dir) && IsTab(m, d) && m.tabs[d][v / 1024].present
    && IsTab(m, m.tabs[d][v / 1024].frame) && Lookup(m, d, v).present && Lookup(m, d, v).frame == f
  }

  ghost predicate RoleOk(m: Mem, f: int)
    requires f in m.owner
  {
    match m.owner[f]
    case Free => f in m.free
    case Held => true
    case Dir => DirOk(m, f)
    case Table(d, x) => TableOk(m, f, d, x)
    case User(d, v) => UserOk(m, f, d, v)
  }

  ghost predicate FreeOk(m: Mem) {
    && (forall i | 0 <= i < |m.free| :: Is(m, m.free[i], Free))
    && (forall i, j | 0 <= i < j < |m.free| :: m.free[i] != m.free[j])
  }

  ghost predicate Inv(m: Mem) {
    && FreeOk(m) && m.data.Keys == m.owner.Keys
    && (forall f | f in m.owner :: InPool(m, f) && RoleOk(m, f))
  }

  // ----- every frame has exactly one use -----

  /** A place that names a frame: entry x of directory d, or the entry for user page v under d. */
  datatype Ref = DirEntry(d: int, x: int) | PageEntry(d: int, v: int)

  function RoleFor(r: Ref): Role {
    match r
    case DirEntry(d, x) => Table(d, x)
    case PageEntry(d, v) => User(d, v)
  }

  ghost predicate Refers(m: Mem, r: Ref, f: int) {
    match r
    case DirEntry(d, x) => Is(m, d, Dir) && IsTab(m, d) && 0 <= x < 1024 && m.tabs[d][x].present
      && m.tabs[d][x].frame == f
    case PageEntry(d, v) => Is(m, d, Dir) && 0 <= v < KPAGE && Lookup(m, d, v).present && Lookup(m, d, v).frame == f
  }

  lemma RefersIsRole(m: Mem, r: Ref, f: int)
    requires Inv(m)
    ensures Refers(m, r, f) <==>
      f in m.owner && m.owner[f] == RoleFor(r)
  {
  }

  /** Frame conservation: a frame on the free list, a directory and a frame held elsewhere are named
      by no live table; a frame with any other use is named in exactly one place. */
  lemma ExactlyOneUse(m: Mem, f: int)
    requires Inv(m) && f in m.owner
    ensures f in m.free <==> m.owner[f] == Free
    ensures m.owner[f].Free? || m.owner[f].Held? || m.owner[f].Dir? <==> forall r :: !Refers(m, r, f)
    ensures forall r, s :: Refers(m, r, f) && Refers(m, s, f) ==> r == s
  {
    assert RoleOk(m, f);
    if f in m.free {
      var i :| 0 <= i < |m.free| && m.free[i] == f;
      assert Is(m, m.free[i], Free);
    }
    forall r
      ensures Refers(m, r, f) <==> m.owner[f] == RoleFor(r)
    {
      RefersIsRole(m, r, f);
    }
    if m.owner[f].Table? { assert Refers(m, DirEntry(m.owner[f].d, m.owner[f].x), f); }
    if m.owner[f].User? { assert Refers(m, PageEntry(m.owner[f].d, m.owner[f].v), f); }
  }

  /** No two processes, and no two pages of one process, share a frame. */
  lemma NoSharing(m: Mem, d: int, v: int, e: int, w: int)
    requires Inv(m) && Is(m, d, Dir) && Is(m, e, Dir) && 0 <= v < KPAGE && 0 <= w < KPAGE
    requires Lookup(m, d, v).present && Lookup(m, e, w).present && Lookup(m, d, v).frame == Lookup(m, e, w).frame
    ensures d == e && v == w
  {
  }

  // ----- the primitive changes -----

  function Taken(m: Mem): Mem
    requires |m.free| > 0
  {
    m.(free := m.free[1..], owner := m.owner[m.free[0] := Held])
  }

  function Put(m: Mem, f: int): Mem {
    m.(free := [f] + m.free, owner := m.owner[f := Free], data := m.data[f := Filled(1)], tabs := m.tabs - {f})
  }

  function NewDir(m: Mem, d: int): Mem {
    m.(tabs := m.tabs[d := ZeroTable()], owner := m.owner[d := Dir])
  }

  /** A zeroed table t becomes entry x of directory d. */
  ghost predicate LinkedTable(m: Mem, n: Mem, d: int, x: int, t: int) {
    && IsTab(m, d) && 0 <= x < 1024
    && n == m.(tabs := m.tabs[t := ZeroTable()][d := m.tabs[d][x := Pte(true, WU, t)]],
       owner := m.owner[t := Table(d, x)])
  }

  /** The entry for page v of directory d, in table t, is overwritten. */
  ghost predicate SetEntry(m: Mem, n: Mem, d: int, v: int, e: Pte) {
    && IsTab(m, d) && 0 <= v < NPAGES && m.tabs[d][v / 1024].present && IsTab(m, m.tabs[d][v / 1024].frame)
    && n.tabs == m.tabs[m.tabs[d][v / 1024].frame := m.tabs[m.tabs[d][v / 1024].frame][v % 1024 := e]]
    && n.free == m.free && n.data == m.data && n.first == m.first && (e.present || e == NIL)
  }

  ghost predicate SameMap(m: Mem, n: Mem) {
    forall d, v | Is(m, d, Dir) && 0 <= v < NPAGES :: Lookup(n, d, v) == Lookup(m, d, v)
  }

  lemma TakenKeeps(m: Mem, n: Mem)
    requires Inv(m) && |m.free| > 0 && n == Taken(m)
    ensures Inv(n) && SameMap(m, n) && m.free[0] in m.owner && m.owner[m.free[0]] == Free && m.free[0] > 0
  {
  }

  lemma PutKeeps(m: Mem, n: Mem, f: int)
    requires Inv(m) && InPool(m, f) && (f !in m.owner || Is(m, f, Held)) && n == Put(m, f)
    ensures Inv(n) && SameMap(m, n)
  {
    forall g | g in n.owner
      ensures RoleOk(n, g)
    {
      if g in m.owner { PutRole(m, n, f, g); } else { assert n.free[0] == f; }
    }
    forall d, v | Is(m, d, Dir) && 0 <= v < NPAGES
      ensures Lookup(n, d, v) == Lookup(m, d, v)
    {
      assert RoleOk(m, d);
      if m.tabs[d][v / 1024].present { assert Is(m, m.tabs[d][v / 1024].frame, Table(d, v / 1024)); }
    }
  }

  lemma PutRole(m: Mem, n: Mem, f: int, g: int)
    requires (f !in m.owner || Is(m, f, Held)) && n == Put(m, f) && g in m.owner
    requires forall h | h in m.owner :: RoleOk(m, h)
    ensures g in n.owner && RoleOk(n, g)
  {
  }

  lemma NewDirKeeps(m: Mem, n: Mem, f: int)
    requires Inv(m) && Is(m, f, Held) && n == NewDir(m, f)
    ensures Inv(n) && SameMap(m, n) && Is(n, f, Dir) && forall v | 0 <= v < NPAGES :: Lookup(n, f, v) == NIL
  {
    forall g | g in n.owner
      ensures RoleOk(n, g)
    {
      assert RoleOk(m, g);
      match m.owner[g] {
        case Free => {}
        case Held => {}
        case Dir => {}
        case Table(d, x) => {}
        case User(d, v) => {
          assert RoleOk(m, d);
          assert Is(m, m.tabs[d][v / 1024].frame, Table(d, v / 1024));
        }
      }
    }
    forall d, v | Is(m, d, Dir) && 0 <= v < NPAGES
      ensures Lookup(n, d, v) == Lookup(m, d, v)
    {
      assert RoleOk(m, d);
      if m.tabs[d][v / 1024].present { assert Is(m, m.tabs[d][v / 1024].frame, Table(d, v / 1024)); }
    }
  }

  lemma LinkedTableKeeps(m: Mem, n: Mem, d: int, x: int, t: int)
    requires Inv(m) && Is(m, d, Dir) && Is(m, t, Held) && LinkedTable(m, n, d, x, t) && !m.tabs[d][x].present
    ensures Inv(n) && SameMap(m, n) && Is(n, t, Table(d, x)) && IsTab(n, d) && n.tabs[d][x] == Pte(true, WU, t)
  {
    forall g | g in n.owner
      ensures RoleOk(n, g)
    {
      assert RoleOk(m, g) && RoleOk(m, d);
      LinkedTableRole(m, n, d, x, t, g);
    }
    forall e, v | Is(m, e, Dir) && 0 <= v < NPAGES
      ensures Lookup(n, e, v) == Lookup(m, e, v)
    {
      assert RoleOk(m, e);
      if m.tabs[e][v / 1024].present { assert Is(m, m.tabs[e][v / 1024].frame, Table(e, v / 1024)); }
    }
  }

  lemma LinkedTableRole(m: Mem, n: Mem, d: int, x: int, t: int, g: int)
    requires Is(m, d, Dir) && Is(m, t, Held) && LinkedTable(m, n, d, x, t) && !m.tabs[d][x].present
    requires g in m.owner && forall h | h in m.owner :: RoleOk(m, h)
    ensures g in n.owner && RoleOk(n, g)
  {
  }

  /** Overwriting one entry changes what is found for that page under that directory, nothing else. */
  lemma SetEntryLookup(m: Mem, n: Mem, d: int, v: int, e: Pte)
    requires Inv(m) && Is(m, d, Dir) && SetEntry(m, n, d, v, e)
    ensures forall c, w | Is(m, c, Dir) && 0 <= w < NPAGES ::
      Lookup(n, c, w) == if c == d && w == v then e else Lookup(m, c, w)
    ensures forall c | Is(m, c, Dir) :: IsTab(m, c) && IsTab(n, c) && n.tabs[c] == m.tabs[c]
  {
  }

  /** The three ways an entry changes: user page mapped, user page unmapped, kernel page mapped. */
  ghost predicate EntryChange(m: Mem, n: Mem, d: int, v: int, e: Pte, h: int)
    requires 0 <= v < NPAGES && h in m.owner
  {
    || (v < KPAGE && Is(m, h, Held) && e.present && e.frame == h && !Lookup(m, d, v).present
       && n.owner == m.owner[h := User(d, v)])
    || (v < KPAGE && Is(m, h, User(d, v)) && !e.present && n.owner == m.owner[h := Held])
    || (v >= KPAGE && n.owner == m.owner)
  }

  lemma EntryRole(m: Mem, n: Mem, d: int, v: int, e: Pte, h: int, g: int)
    requires Inv(m) && Is(m, d, Dir) && SetEntry(m, n, d, v, e) && h in m.owner && EntryChange(m, n, d, v, e, h)
    requires g in m.owner
    ensures g in n.owner && RoleOk(n, g)
  {
    hide FreeOk, Lookup;
    SetEntryLookup(m, n, d, v, e);
    assert RoleOk(m, g) && RoleOk(m, d);
    var t := m.tabs[d][v / 1024].frame;
    assert Is(m, t, Table(d, v / 1024));
    match m.owner[g] {
      case Free => {}
      case Held => {
        assert g == h && v < KPAGE && Is(m, h, Held) ==> Lookup(n, d, v) == e;
      }
      case Dir => {
        assert RoleOk(n, g);
      }
      case Table(c, x) => {
      }
      case User(c, w) => {
        assert RoleOk(m, c);
        assert Is(m, m.tabs[c][w / 1024].frame, Table(c, w / 1024));
        assert RoleOk(m, m.tabs[c][w / 1024].frame);
      }
    }
  }

  /** Changing an entry together with the use of its frame keeps the invariant. */
  lemma SetEntryKeeps(m: Mem, n: Mem, d: int, v: int, e: Pte, h: int)
    requires Inv(m) && Is(m, d, Dir) && SetEntry(m, n, d, v, e) && h in m.owner && EntryChange(m, n, d, v, e, h)
    ensures Inv(n)
  {
    hide RoleOk, Lookup;
    forall g | g in n.owner
      ensures RoleOk(n, g) && InPool(n, g)
    {
      EntryRole(m, n, d, v, e, h, g);
    }
    SetEntryFree(m, n, d, v, e, h);
  }

  lemma SetEntryFree(m: Mem, n: Mem, d: int, v: int, e: Pte, h: int)
    requires Inv(m) && SetEntry(m, n, d, v, e) && h in m.owner && EntryChange(m, n, d, v, e, h)
    ensures FreeOk(n) && n.data.Keys == n.owner.Keys
  {
  }
}
