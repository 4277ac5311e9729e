/** What mappages, deallocuvm, freevm, allocuvm, setupkvm and copyuvm do to the frames and to what
    every directory maps, and the steps their loops take. */
module AddressSpaces {
  import opened PageTables

  function PgUp(sz: int): int { (sz + PGSIZE - 1) / PGSIZE }

  ghost predicate HasTab(m: Mem, d: int, x: int)
    requires 0 <= x < 1024
  {
    IsTab(m, d) && m.tabs[d][x].present
  }

  ghost predicate SameData(m: Mem, n: Mem, f: int)
  {
    f in m.data && f in n.data && n.data[f] == m.data[f]
  }

  // ----- walkpgdir -----

  /** walkpgdir found or made the table t for page v. */
  ghost predicate Walked(m: Mem, n: Mem, d: int, v: int, t: int)
    requires 0 <= v < NPAGES
  {
    && IsTab(m, d)
    && if m.tabs[d][v / 1024].present then n == m && t == m.tabs[d][v / 1024].frame
       else |m.free| > 0 && t == m.free[0] && LinkedTable(Taken(m), n, d, v / 1024, t)
  }

  /** The owner of f is unchanged, or f was free and is now a table of d. */
  ghost predicate OnlyTables(m: Mem, n: Mem, d: int, f: int)
    requires f in m.owner
  {
    f in n.owner && (n.owner[f] == m.owner[f] || (m.owner[f] == Free && n.owner[f].Table? && n.owner[f].d == d))
  }

  lemma WalkedKeeps(m: Mem, n: Mem, d: int, v: int, t: int)
    requires Inv(m) && Is(m, d, Dir) && 0 <= v < NPAGES && Walked(m, n, d, v, t)
    ensures Inv(n) && SameMap(m, n) && n.owner.Keys == m.owner.Keys && n.data == m.data
    ensures IsTab(n, d) && n.tabs[d][v / 1024].present && n.tabs[d][v / 1024].frame == t && IsTab(n, t)
    ensures forall f | f in m.owner :: OnlyTables(m, n, d, f)
    ensures |n.free| == |m.free| - (if HasTab(m, d, v / 1024) then 0 else 1)
    ensures forall x | 0 <= x < 1024 :: HasTab(n, d, x) <==> HasTab(m, d, x) || x == v / 1024
  {
    assert RoleOk(m, d);
    if m.tabs[d][v / 1024].present {
      assert Is(m, t, Table(d, v / 1024));
      assert RoleOk(m, t);
    } else {
      var k := Taken(m);
      TakenKeeps(m, k);
      assert RoleOk(k, d);
      LinkedTableKeeps(k, n, d, v / 1024, t);
      assert RoleOk(n, t);
    }
  }

  /** What mappages finds in the entry of page v: whether the directory maps the page already. */
  lemma RemapTest(m: Mem, k: Mem, d: int, v: int, t: int)
    requires Inv(m) && Is(m, d, Dir) && 0 <= v < NPAGES && Walked(m, k, d, v, t)
    ensures IsTab(k, t) && IsTab(k, d) && HasTab(k, d, v / 1024) && k.tabs[d][v / 1024].frame == t
    ensures k.tabs[t][v % 1024].present <==> Lookup(m, d, v).present
  {
  }

  // ----- mappages -----

  /** Frame f backs a user page when [v, v + done) is mapped to the frames from pa on. */
  predicate UserFrame(v: int, done: int, pa: int, f: int) { pa <= f < pa + done && v + f - pa < KPAGE }

  /** n is m with the pages [v, v + done) of d mapped to the frames from pa on. */
  ghost predicate Mapped(m: Mem, n: Mem, d: int, v: int, done: int, pa: int, flags: Flags)
    requires 0 <= v
  {
    && n.owner.Keys == m.owner.Keys && n.data == m.data
    && (forall f | f in m.owner ::
          if UserFrame(v, done, pa, f) then n.owner[f] == User(d, v + f - pa) else OnlyTables(m, n, d, f))
    && (forall e, w | Is(m, e, Dir) && 0 <= w < NPAGES ::
          Lookup(n, e, w) == if e == d && v <= w < v + done then Pte(true, flags, pa + w - v) else Lookup(m, e, w))
  }

  lemma MapsNothing(m: Mem, n: Mem, d: int, v: int, pa: int, flags: Flags)
    requires n == m && 0 <= v
    ensures Mapped(m, n, d, v, 0, pa, flags)
  {
  }

  /** One round of mappages: walk, then write the entry of page w. */
  lemma MapsOne(m: Mem, k: Mem, n: Mem, d: int, w: int, t: int, pa: int, flags: Flags)
    requires Inv(m) && Is(m, d, Dir) && 0 <= w < NPAGES && Walked(m, k, d, w, t)
    requires SetEntry(k, n, d, w, Pte(true, flags, pa)) && !Lookup(m, d, w).present
    requires w < KPAGE ==> Is(m, pa, Held) && n.owner == k.owner[pa := User(d, w)]
    requires w >= KPAGE ==> n.owner == k.owner
    ensures Inv(n) && Mapped(m, n, d, w, 1, pa, flags)
    ensures |n.free| == |m.free| - (if HasTab(m, d, w / 1024) then 0 else 1)
    ensures forall x | 0 <= x < 1024 :: HasTab(n, d, x) <==> HasTab(m, d, x) || x == w / 1024
  {
    hide Inv, Lookup, LinkedTable;
    WalkedKeeps(m, k, d, w, t);
    SetEntryLookup(k, n, d, w, Pte(true, flags, pa));
    assert OnlyTables(m, k, d, d);
    SetEntryKeeps(k, n, d, w, Pte(true, flags, pa), if w < KPAGE then pa else d);
  }

  /** The frames that mappages is to hand to user pages are in the caller's hands. */
  ghost predicate InHand(m: Mem, v: int, size: int, pa: int) {
    forall f | UserFrame(v, size, pa, f) :: Is(m, f, Held)
  }

  /** What mappages finds before page v + done. */
  lemma MapsHere(m: Mem, k: Mem, d: int, v: int, done: int, size: int, pa: int, flags: Flags)
    requires Is(m, d, Dir) && 0 <= v && 0 <= done < size && v + size <= NPAGES && InHand(m, v, size, pa)
    requires Mapped(m, k, d, v, done, pa, flags)
    ensures Is(k, d, Dir) && Lookup(k, d, v + done) == Lookup(m, d, v + done)
    ensures v + done < KPAGE ==> Is(k, pa + done, Held)
  {
    hide Lookup;
    assert !UserFrame(v, done, pa, d) by { assert UserFrame(v, done, pa, d) ==> UserFrame(v, size, pa, d); }
    assert OnlyTables(m, k, d, d);
    if v + done < KPAGE {
      assert UserFrame(v, size, pa, pa + done);
      assert OnlyTables(m, k, d, pa + done);
    }
  }

  /** Mapping one page more. */
  lemma MapsNext(m: Mem, k: Mem, n: Mem, d: int, v: int, done: int, size: int, pa: int, flags: Flags)
    requires Is(m, d, Dir) && 0 <= v && 0 <= done < size && v + size <= NPAGES && InHand(m, v, size, pa)
    requires Mapped(m, k, d, v, done, pa, flags) && Mapped(k, n, d, v + done, 1, pa + done, flags)
    ensures Mapped(m, n, d, v, done + 1, pa, flags)
  {
    hide Lookup;
    forall f | f in m.owner
      ensures if UserFrame(v, done + 1, pa, f) then n.owner[f] == User(d, v + f - pa) else OnlyTables(m, n, d, f)
    {
      assert UserFrame(v, done + 1, pa, f) ==> UserFrame(v, size, pa, f);
      assert UserFrame(v + done, 1, pa + done, f) <==> UserFrame(v, done + 1, pa, f) && !UserFrame(v, done, pa, f);
    }
    forall e, w | Is(m, e, Dir) && 0 <= w < NPAGES
      ensures Lookup(n, e, w) == if e == d && v <= w < v + done + 1 then Pte(true, flags, pa + w - v)
        else Lookup(m, e, w)
    {
      assert UserFrame(v, done, pa, e) ==> UserFrame(v, size, pa, e);
      assert OnlyTables(m, k, d, e);
      assert Is(k, e, Dir);
    }
  }

  lemma EntrySet(k: Mem, n: Mem, d: int, v: int, t: int, e: Pte)
    requires IsTab(k, t) && 0 <= v < NPAGES && HasTab(k, d, v / 1024) && k.tabs[d][v / 1024].frame == t && e.present
    requires n.tabs == k.tabs[t := k.tabs[t][v % 1024 := e]]
    requires n.free == k.free && n.data == k.data && n.first == k.first
    ensures SetEntry(k, n, d, v, e)
  {
  }

  lemma NoTable(m: Mem, d: int, v: int)
    requires 0 <= v < NPAGES && !HasTab(m, d, v / 1024)
    ensures !Lookup(m, d, v).present
  {
  }

  /** A page that is mapped has its table already, so nothing changes before the panic. */
  lemma RemapStops(m0: Mem, m: Mem, k: Mem, d: int, v: int, done: int, pa: int, flags: Flags, t: int)
    requires 0 <= v && 0 <= done && v + done < NPAGES && Mapped(m0, m, d, v, done, pa, flags)
    requires Walked(m, k, d, v + done, t) && Lookup(m, d, v + done).present
    ensures k == m
  {
  }

  // ----- deallocuvm -----

  function Freed(owner: map<int, Role>, d: int, lo: int, hi: int): map<int, Role> {
    map f | f in owner :: if owner[f].User? && owner[f].d == d && lo <= owner[f].v < hi then Free else owner[f]
  }

  /** n is m with the user pages [lo, hi) of d unmapped and their frames free. */
  ghost predicate Shrunk(m: Mem, n: Mem, d: int, lo: int, hi: int) {
    && n.owner == Freed(m.owner, d, lo, hi)
    && (forall f | f in m.owner && n.owner[f] == m.owner[f] != Free :: SameData(m, n, f))
    && (forall e, w | Is(m, e, Dir) && 0 <= w < NPAGES ::
          Lookup(n, e, w) == if e == d && lo <= w < hi then NIL else Lookup(m, e, w))
    && (forall e | Is(m, e, Dir) :: e in m.tabs && e in n.tabs && n.tabs[e] == m.tabs[e])
  }

  lemma ShrinksNothing(m: Mem, n: Mem, d: int, lo: int)
    requires Inv(m) && n == m
    ensures Shrunk(m, n, d, lo, lo)
  {
  }

  /** deallocuvm frees the frame of page v first and clears the entry afterwards. */
  lemma ShrinksOne(m: Mem, n: Mem, d: int, v: int, t: int, f: int)
    requires Inv(m) && Is(m, d, Dir) && 0 <= v < KPAGE && HasTab(m, d, v / 1024) && t == m.tabs[d][v / 1024].frame
    requires Lookup(m, d, v).present && f == Lookup(m, d, v).frame && t in m.tabs
    requires t in Put(m, f).tabs && |m.tabs[t]| == 1024
    requires n == Put(m, f).(tabs := Put(m, f).tabs[t := m.tabs[t][v % 1024 := NIL]])
    ensures Inv(n) && Shrunk(m, n, d, v, v + 1)
  {
    hide Inv, Lookup, Filled;
    var k := m.(tabs := m.tabs[t := m.tabs[t][v % 1024 := NIL]], owner := m.owner[f := Held]);
    RefersIsRole(m, PageEntry(d, v), f);
    assert Is(m, f, User(d, v));
    SetEntryLookup(m, k, d, v, NIL);
    SetEntryKeeps(m, k, d, v, NIL, f);
    PutAfter(m, k, n, d, v, t, f);
    OwnerPositive(m, f);
    PutKeeps(k, n, f);
    forall g | g in m.owner
      ensures m.owner[g] == User(d, v) ==> g == f
    {
      if m.owner[g] == User(d, v) { RefersIsRole(m, PageEntry(d, v), g); }
    }
    DirsKept(m, n, d, v, f, t);
  }

  lemma OwnerPositive(m: Mem, f: int)
    requires Inv(m) && f in m.owner
    ensures f > 0 && InPool(m, f) && f in m.data
  {
  }

  lemma PutAfter(m: Mem, k: Mem, n: Mem, d: int, v: int, t: int, f: int)
    requires t in m.tabs && |m.tabs[t]| == 1024 && f != t && t in Put(m, f).tabs && 0 <= v
    requires k == m.(tabs := m.tabs[t := m.tabs[t][v % 1024 := NIL]], owner := m.owner[f := Held])
    requires n == Put(m, f).(tabs := Put(m, f).tabs[t := m.tabs[t][v % 1024 := NIL]])
    ensures n == Put(k, f)
  {
  }

  lemma DirsKept(m: Mem, n: Mem, d: int, v: int, f: int, t: int)
    requires Inv(m) && Is(m, d, Dir) && 0 <= v < NPAGES && HasTab(m, d, v / 1024)
    requires t == m.tabs[d][v / 1024].frame && Is(m, f, User(d, v))
    requires t in m.tabs && |m.tabs[t]| == 1024 && t in Put(m, f).tabs
    requires n == Put(m, f).(tabs := Put(m, f).tabs[t := m.tabs[t][v % 1024 := NIL]])
    ensures forall e | Is(m, e, Dir) :: e in m.tabs && e in n.tabs && n.tabs[e] == m.tabs[e]
  {
  }

  lemma ShrinksMore(m: Mem, k: Mem, n: Mem, d: int, lo: int, mid: int, hi: int)
    requires Shrunk(m, k, d, lo, mid) && Shrunk(k, n, d, mid, hi) && lo <= mid <= hi
    ensures Shrunk(m, n, d, lo, hi)
  {
    hide Lookup;
    assert forall f | f in m.owner :: n.owner[f] == m.owner[f] && m.owner[f] != Free ==> k.owner[f] == m.owner[f];
    forall f | f in m.owner && n.owner[f] == m.owner[f] != Free
      ensures SameData(m, n, f)
    {
      assert k.owner[f] == m.owner[f];
      assert SameData(m, k, f) && SameData(k, n, f);
    }
    forall e | Is(m, e, Dir)
      ensures e in m.tabs && e in n.tabs && n.tabs[e] == m.tabs[e] && Is(k, e, Dir)
    {
    }
  }

  /** Pages that are not mapped need no work. */
  lemma ShrinksUnmapped(m: Mem, n: Mem, d: int, lo: int, hi: int)
    requires Inv(m) && n == m && Is(m, d, Dir) && 0 <= lo <= hi <= KPAGE
    requires forall w | lo <= w < hi :: !Lookup(m, d, w).present
    ensures Shrunk(m, n, d, lo, hi)
  {
    ShrinksNothing(m, n, d, lo);
    forall f | f in m.owner
      ensures !(m.owner[f].User? && m.owner[f].d == d && lo <= m.owner[f].v < hi)
    {
      if m.owner[f].User? && m.owner[f].d == d && lo <= m.owner[f].v < hi {
        RefersIsRole(m, PageEntry(d, m.owner[f].v), f);
      }
    }
    assert n.owner == Freed(m.owner, d, lo, hi);
    forall w | lo <= w < hi
      ensures Lookup(m, d, w) == NIL
    {
    }
  }

  /** Where the directory has no table, nothing is mapped up to the next directory entry. */
  lemma SkipsTable(m: Mem, d: int, a: int, b: int)
    requires Inv(m) && Is(m, d, Dir) && 0 <= a <= b <= KPAGE && b <= (a / 1024 + 1) * 1024 && !HasTab(m, d, a / 1024)
    ensures Shrunk(m, m, d, a, b)
  {
    NoTableNoPages(m, d, a, b);
    ShrinksUnmapped(m, m, d, a, b);
  }

  lemma SkipsPage(m: Mem, d: int, a: int, t: int)
    requires Inv(m) && Is(m, d, Dir) && 0 <= a < KPAGE && Walked(m, m, d, a, t)
    requires IsTab(m, t) && !m.tabs[t][a % 1024].present
    ensures Shrunk(m, m, d, a, a + 1)
  {
    WalkFinds(m, m, d, a, t);
    ShrinksUnmapped(m, m, d, a, a + 1);
  }

  lemma WalkFinds(m: Mem, n: Mem, d: int, v: int, t: int)
    requires Inv(m) && Is(m, d, Dir) && 0 <= v < NPAGES && Walked(m, n, d, v, t)
    ensures HasTab(n, d, v / 1024) && t == n.tabs[d][v / 1024].frame && IsTab(n, t)
    ensures Lookup(n, d, v) == if n.tabs[t][v % 1024].present then n.tabs[t][v % 1024] else NIL
  {
  }

  /** The frame of a mapped user page can be freed, and is neither a table nor a directory. */
  lemma FrameInUse(m: Mem, d: int, v: int, t: int, f: int)
    requires Inv(m) && Is(m, d, Dir) && 0 <= v < KPAGE && HasTab(m, d, v / 1024) && t == m.tabs[d][v / 1024].frame
    requires Lookup(m, d, v).present && f == Lookup(m, d, v).frame
    ensures Is(m, f, User(d, v)) && f > 0 && InPool(m, f) && f != t && f != d && Is(m, t, Table(d, v / 1024))
  {
  }

  lemma ShrunkDir(m: Mem, n: Mem, d: int, lo: int, hi: int)
    requires Shrunk(m, n, d, lo, hi)
    ensures forall e | Is(m, e, Dir) :: Is(n, e, Dir)
  {
  }

  /** How many pages of d in [lo, hi) are mapped. */
  ghost function PresentIn(m: Mem, d: int, lo: int, hi: int): (n: int)
    requires 0 <= lo <= hi <= KPAGE
    ensures 0 <= n <= hi - lo
    decreases hi
  {
    if hi == lo then 0 else PresentIn(m, d, lo, hi - 1) + (if Lookup(m, d, hi - 1).present then 1 else 0)
  }

  lemma NonePresent(m: Mem, d: int, lo: int)
    requires 0 <= lo <= KPAGE
    ensures PresentIn(m, d, lo, lo) == 0
  {
  }

  lemma PresentStep(m: Mem, d: int, lo: int, a: int)
    requires 0 <= lo <= a < KPAGE
    ensures PresentIn(m, d, lo, a + 1) == PresentIn(m, d, lo, a) + (if Lookup(m, d, a).present then 1 else 0)
  {
  }

  lemma {:induction false} PresentSkip(m: Mem, d: int, lo: int, a: int, b: int)
    requires 0 <= lo <= a <= b <= KPAGE && forall w | a <= w < b :: !Lookup(m, d, w).present
    ensures PresentIn(m, d, lo, b) == PresentIn(m, d, lo, a)
    decreases b
  {
    hide Lookup;
    if a < b { PresentSkip(m, d, lo, a, b - 1); }
  }

  /** What is still to be unmapped is as it was. */
  lemma ShrunkHere(m: Mem, n: Mem, d: int, lo: int, mid: int)
    requires Shrunk(m, n, d, lo, mid) && Is(m, d, Dir)
    ensures forall w | 0 <= w < NPAGES && w >= mid :: Lookup(n, d, w) == Lookup(m, d, w)
  {
    hide Lookup;
  }

  lemma NoTableNoPages(m: Mem, d: int, a: int, b: int)
    requires 0 <= a <= b <= KPAGE && b <= (a / 1024 + 1) * 1024 && !HasTab(m, d, a / 1024)
    ensures forall w | a <= w < b :: !Lookup(m, d, w).present
  {
    forall w | a <= w < b
      ensures !Lookup(m, d, w).present
    {
      assert w / 1024 == a / 1024;
    }
  }

  // ----- freevm -----

  ghost predicate Belongs(r: Role, f: int, d: int) {
    f == d || (r.Table? && r.d == d) || (r.User? && r.d == d)
  }

  ghost function WithoutDir(owner: map<int, Role>, d: int): map<int, Role> {
    map f | f in owner :: if Belongs(owner[f], f, d) then Free else owner[f]
  }

  /** Everything d owned is free, everything else is as before. */
  ghost predicate Gone(m: Mem, n: Mem, d: int) {
    && n.owner == WithoutDir(m.owner, d)
    && (forall f | f in m.owner && n.owner[f] == m.owner[f] != Free :: SameData(m, n, f))
    && (forall e, w | Is(m, e, Dir) && e != d && 0 <= w < NPAGES :: Lookup(n, e, w) == Lookup(m, e, w))
  }

  /** While freevm frees tables, before entry x: the tables and the directory are in its hands. */
  ghost function Condemned(owner: map<int, Role>, d: int, x: int): map<int, Role> {
    map f | f in owner ::
      if f == d then Held
      else if owner[f].Table? && owner[f].d == d then (if owner[f].x < x then Free else Held)
      else owner[f]
  }

  lemma CondemnKeeps(m: Mem, n: Mem, d: int)
    requires Inv(m) && Is(m, d, Dir) && n == m.(owner := Condemned(m.owner, d, 0))
    requires forall f | f in m.owner :: !(m.owner[f].User? && m.owner[f].d == d)
    ensures Inv(n) && SameMap(m, n)
  {
    forall f | f in m.owner && m.owner[f].Table?
      ensures m.owner[f].x >= 0
    {
      assert RoleOk(m, f);
    }
    forall f | f in n.owner
      ensures RoleOk(n, f)
    {
      assert RoleOk(m, f);
      CondemnRole(m, n, d, f);
    }
    assert FreeOk(n);
  }

  lemma CondemnRole(m: Mem, n: Mem, d: int, f: int)
    requires f in m.owner && RoleOk(m, f) && n == m.(owner := Condemned(m.owner, d, 0)) && Is(m, d, Dir)
    requires forall g | g in m.owner && m.owner[g].Table? :: m.owner[g].x >= 0
    requires !(m.owner[f].User? && m.owner[f].d == d)
    ensures RoleOk(n, f)
  {
  }

  /** Freeing entry x of the condemned directory. */
  lemma FreesTable(m1: Mem, k: Mem, n: Mem, d: int, x: int)
    requires Inv(m1) && Is(m1, d, Dir) && IsTab(m1, d) && 0 <= x < 1024 && k.owner == Condemned(m1.owner, d, x)
    requires m1.tabs[d][x].present ==> n.owner == k.owner[m1.tabs[d][x].frame := Free]
    requires !m1.tabs[d][x].present ==> n.owner == k.owner
    ensures n.owner == Condemned(m1.owner, d, x + 1)
    ensures m1.tabs[d][x].present ==> Is(k, m1.tabs[d][x].frame, Held) && m1.tabs[d][x].frame != d
  {
  }

  lemma NoUsersLeft(m: Mem, m1: Mem, d: int)
    requires Inv(m) && Shrunk(m, m1, d, 0, KPAGE)
    ensures forall f | f in m1.owner :: !(m1.owner[f].User? && m1.owner[f].d == d)
  {
  }

  /** deallocuvm of the whole user half, then the tables, then the directory: all of d is free. */
  lemma AllFreed(m: Mem, m1: Mem, d: int)
    requires Inv(m) && Is(m, d, Dir) && m1.owner == Freed(m.owner, d, 0, KPAGE)
    ensures Condemned(m1.owner, d, 1024)[d := Free] == WithoutDir(m.owner, d)
  {
  }

  /** The state of freevm's loop before entry x; m1 is the state the loop started in. */
  ghost predicate Freeing(m1: Mem, n: Mem, d: int, x: int) {
    && n.owner == Condemned(m1.owner, d, x)
    && (forall f | f in m1.owner && !Belongs(m1.owner[f], f, d) :: SameData(m1, n, f))
    && (forall e, w | Is(m1, e, Dir) && e != d && 0 <= w < NPAGES :: Lookup(n, e, w) == Lookup(m1, e, w))
    && IsTab(m1, d) && IsTab(n, d) && n.tabs[d] == m1.tabs[d]
  }

  lemma FreeingStarts(m1: Mem, n: Mem, d: int)
    requires Inv(m1) && Is(m1, d, Dir) && n == m1.(owner := Condemned(m1.owner, d, 0))
    requires forall f | f in m1.owner :: !(m1.owner[f].User? && m1.owner[f].d == d)
    ensures Inv(n) && Freeing(m1, n, d, 0)
  {
    hide Lookup;
    CondemnKeeps(m1, n, d);
    assert RoleOk(m1, d);
    forall f | f in m1.owner
      ensures SameData(m1, n, f)
    {
      OwnerPositive(m1, f);
    }
  }

  lemma FreeingNext(m1: Mem, k: Mem, n: Mem, d: int, x: int)
    requires Inv(m1) && Inv(k) && Is(m1, d, Dir) && 0 <= x < 1024 && Freeing(m1, k, d, x)
    requires n == if m1.tabs[d][x].present then Put(k, m1.tabs[d][x].frame) else k
    ensures Inv(n) && Freeing(m1, n, d, x + 1)
  {
    hide Lookup, Inv, Condemned, Filled;
    FreesTable(m1, k, n, d, x);
    if m1.tabs[d][x].present {
      var f := m1.tabs[d][x].frame;
      OwnerPositive(k, f);
      PutKeeps(k, n, f);
      TableBelongs(m1, d, x);
      OthersCondemned(m1, k, d, x);
    }
  }

  lemma TableBelongs(m1: Mem, d: int, x: int)
    requires Inv(m1) && Is(m1, d, Dir) && 0 <= x < 1024 && HasTab(m1, d, x)
    ensures Is(m1, m1.tabs[d][x].frame, Table(d, x))
  {
  }

  lemma OthersCondemned(m1: Mem, k: Mem, d: int, x: int)
    requires k.owner == Condemned(m1.owner, d, x)
    ensures forall e | Is(m1, e, Dir) && e != d :: Is(k, e, Dir)
  {
  }

  lemma FreeingEnds(m: Mem, m1: Mem, k: Mem, n: Mem, d: int)
    requires Inv(m) && Inv(k) && Is(m, d, Dir) && Shrunk(m, m1, d, 0, KPAGE)
    requires Freeing(m1, k, d, 1024) && n == Put(k, d)
    ensures Inv(n) && Gone(m, n, d)
  {
    hide Lookup, Inv, Filled;
    AllFreed(m, m1, d);
    assert Is(k, d, Held);
    OwnerPositive(k, d);
    PutKeeps(k, n, d);
    OthersCondemned(m1, k, d, 1024);
    forall f | f in m.owner && n.owner[f] == m.owner[f] != Free
      ensures SameData(m, n, f)
    {
      assert !Belongs(m1.owner[f], f, d) && m1.owner[f] == m.owner[f];
    }
  }

  lemma FreeingFrame(m1: Mem, k: Mem, d: int, x: int)
    requires Inv(m1) && Inv(k) && Is(m1, d, Dir) && 0 <= x < 1024 && Freeing(m1, k, d, x)
    ensures d in k.tabs && |k.tabs[d]| == 1024 && d in m1.tabs && |m1.tabs[d]| == 1024 && k.tabs[d] == m1.tabs[d]
    ensures k.tabs[d][x].present ==>
      k.tabs[d][x].frame > 0 && InPool(k, k.tabs[d][x].frame) && Is(k, k.tabs[d][x].frame, Held)
  {
  }

  lemma FreeingDir(m1: Mem, k: Mem, d: int)
    requires Inv(k) && Is(m1, d, Dir) && Freeing(m1, k, d, 1024)
    ensures d > 0 && InPool(k, d) && Is(k, d, Held)
  {
  }

  // ----- allocuvm -----

  /** How many frames allocuvm takes for the pages [lo, hi): one a page and one a missing table. */
  ghost function Need(m: Mem, d: int, lo: int, hi: int): (n: int)
    requires 0 <= lo <= hi <= KPAGE
    ensures n >= hi - lo
    decreases hi
  {
    if hi == lo then 0
    else
      Need(m, d, lo, hi - 1) + 1
      + if (hi - 1 == lo || (hi - 1) % 1024 == 0) && !HasTab(m, d, (hi - 1) / 1024) then 1 else 0
  }

  lemma {:induction false} NeedGrows(m: Mem, d: int, lo: int, mid: int, hi: int)
    requires 0 <= lo <= mid <= hi <= KPAGE
    ensures Need(m, d, lo, mid) + hi - mid <= Need(m, d, lo, hi)
    decreases hi
  {
    if mid < hi { NeedGrows(m, d, lo, mid, hi - 1); }
  }

  lemma NeedStep(m: Mem, k: Mem, d: int, lo: int, a: int, hi: int)
    requires 0 <= lo <= a < hi <= KPAGE && TabsUpTo(m, k, d, lo, a)
    ensures Need(m, d, lo, a + 1) == Need(m, d, lo, a) + 1 + (if HasTab(k, d, a / 1024) then 0 else 1)
    ensures Need(m, d, lo, a + 1) <= Need(m, d, lo, hi)
  {
    hide HasTab;
    NeedGrows(m, d, lo, a + 1, hi);
    assert TabsUpTo(m, k, d, lo, a) ==>
      (HasTab(k, d, a / 1024) <==> HasTab(m, d, a / 1024) || (lo < a && lo / 1024 <= a / 1024 <= (a - 1) / 1024));
  }

  lemma PgUpOrder(s: int, t: int)
    ensures s <= t ==> PgUp(s) <= PgUp(t)
  {
  }

  lemma PgUpLess(a: int, sz: int)
    requires 0 <= sz
    ensures a * PGSIZE < sz <==> a < PgUp(sz)
    ensures 0 <= PgUp(sz) && (sz <= KERNBASE ==> PgUp(sz) <= KPAGE)
  {
  }

  /** The owner of f is unchanged, or f was free and is a table of d or the frame of a page of d in [lo, hi). */
  ghost predicate OnlyGrown(m: Mem, n: Mem, d: int, lo: int, hi: int, f: int)
    requires f in m.owner
  {
    && f in n.owner
    && (|| n.owner[f] == m.owner[f]
        || (m.owner[f] == Free && n.owner[f].Table? && n.owner[f].d == d)
        || (m.owner[f] == Free && n.owner[f].User? && n.owner[f].d == d && lo <= n.owner[f].v < hi))
  }

  ghost predicate FreshZero(m: Mem, n: Mem, d: int, w: int)
    requires 0 <= w < NPAGES
  {
    var e := Lookup(n, d, w);
    e.present && e.flags == WU && Is(m, e.frame, Free) && e.frame in n.data && n.data[e.frame] == Filled(0)
  }

  /** n is m with zeroed writable user pages mapped at [lo, hi) of d. */
  ghost predicate Grown(m: Mem, n: Mem, d: int, lo: int, hi: int) {
    && n.owner.Keys == m.owner.Keys
    && (forall f | f in m.owner :: OnlyGrown(m, n, d, lo, hi, f))
    && (forall f | f in m.owner && m.owner[f] != Free :: SameData(m, n, f))
    && (forall e, w | Is(m, e, Dir) && 0 <= w < NPAGES ::
          if e == d && lo <= w < hi then FreshZero(m, n, d, w) else Lookup(n, e, w) == Lookup(m, e, w))
  }

  ghost predicate Unmapped(m: Mem, d: int, lo: int, hi: int) {
    forall w | lo <= w < hi && 0 <= w < NPAGES :: !Lookup(m, d, w).present
  }

  ghost predicate TabsUpTo(m: Mem, n: Mem, d: int, lo: int, hi: int) {
    forall x | 0 <= x < 1024 :: HasTab(n, d, x) <==> HasTab(m, d, x) || (lo < hi && lo / 1024 <= x <= (hi - 1) / 1024)
  }

  lemma TabsNext(m: Mem, k: Mem, n: Mem, d: int, lo: int, a: int)
    requires 0 <= lo <= a < KPAGE && TabsUpTo(m, k, d, lo, a)
    requires forall x | 0 <= x < 1024 :: HasTab(n, d, x) <==> HasTab(k, d, x) || x == a / 1024
    ensures TabsUpTo(m, n, d, lo, a + 1)
    ensures HasTab(k, d, a / 1024) <==> !((a == lo || a % 1024 == 0) && !HasTab(m, d, a / 1024))
  {
  }

  /** One round of allocuvm: kalloc, clear, map. */
  lemma GrowsOne(m: Mem, k: Mem, h: Mem, n: Mem, d: int, lo: int, a: int, f: int)
    requires Inv(m) && Inv(k) && Is(m, d, Dir) && 0 <= lo <= a < KPAGE && Grown(m, k, d, lo, a)
    requires |k.free| > 0 && f == k.free[0] && h == Taken(k).(data := k.data[f := Filled(0)])
    requires Mapped(h, n, d, a, 1, f, WU)
    ensures Grown(m, n, d, lo, a + 1)
  {
    hide Lookup, Filled, RoleOk, Inv, Grown, Mapped;
    TakenKeeps(k, Taken(k));
    assert OnlyGrown(m, k, d, lo, a, f) by { GrownOwner(m, k, d, lo, a, f); }
    GrowsOwner(m, k, h, n, d, lo, a, f);
    forall e, w | Is(m, e, Dir) && 0 <= w < NPAGES
      ensures if e == d && lo <= w < a + 1 then FreshZero(m, n, d, w) else Lookup(n, e, w) == Lookup(m, e, w)
    {
      GrowsPage(m, k, h, n, d, lo, a, f, e, w);
    }
    GrownJoin(m, n, d, lo, a + 1);
  }

  lemma GrownOwner(m: Mem, k: Mem, d: int, lo: int, a: int, f: int)
    requires Grown(m, k, d, lo, a) && f in k.owner
    ensures f in m.owner && OnlyGrown(m, k, d, lo, a, f)
  {
  }

  lemma GrownJoin(m: Mem, n: Mem, d: int, lo: int, hi: int)
    requires n.owner.Keys == m.owner.Keys && forall f | f in m.owner :: OnlyGrown(m, n, d, lo, hi, f)
    requires forall f | f in m.owner && m.owner[f] != Free :: SameData(m, n, f)
    requires forall e, w | Is(m, e, Dir) && 0 <= w < NPAGES ::
      if e == d && lo <= w < hi then FreshZero(m, n, d, w) else Lookup(n, e, w) == Lookup(m, e, w)
    ensures Grown(m, n, d, lo, hi)
  {
  }

  lemma GrowsPage(m: Mem, k: Mem, h: Mem, n: Mem, d: int, lo: int, a: int, f: int, e: int, w: int)
    requires Inv(k) && Is(m, d, Dir) && 0 <= lo <= a < KPAGE && Grown(m, k, d, lo, a) && Is(m, f, Free)
    requires |k.free| > 0 && f == k.free[0] && Is(k, f, Free) && h == Taken(k).(data := k.data[f := Filled(0)])
    requires Mapped(h, n, d, a, 1, f, WU) && Is(m, e, Dir) && 0 <= w < NPAGES
    ensures if e == d && lo <= w < a + 1 then FreshZero(m, n, d, w) else Lookup(n, e, w) == Lookup(m, e, w)
  {
    hide Lookup, Filled, RoleOk, Inv;
    LookupIgnoresData(k, h);
    assert OnlyGrown(m, k, d, lo, a, e);
    assert Is(k, e, Dir) && Is(h, e, Dir);
    if e == d && lo <= w < a {
      assert FreshZero(m, k, d, w);
      PageNotFree(k, d, w);
    }
  }

  lemma PageNotFree(k: Mem, d: int, w: int)
    requires Inv(k) && Is(k, d, Dir) && 0 <= w < KPAGE && Lookup(k, d, w).present
    ensures Is(k, Lookup(k, d, w).frame, User(d, w))
  {
  }

  lemma LookupIgnoresData(m: Mem, n: Mem)
    requires n.tabs == m.tabs
    ensures forall d, v | 0 <= v < NPAGES :: Lookup(n, d, v) == Lookup(m, d, v)
  {
  }

  /** Writing a held frame's bytes changes nothing else. */
  lemma DataKeeps(m: Mem, n: Mem, f: int, b: Page)
    requires Inv(m) && f in m.owner && n == m.(data := m.data[f := b])
    ensures Inv(n) && SameMap(m, n)
  {
  }

  lemma GrowsOwner(m: Mem, k: Mem, h: Mem, n: Mem, d: int, lo: int, a: int, f: int)
    requires 0 <= lo <= a < KPAGE && Grown(m, k, d, lo, a) && Is(k, f, Free) && Is(m, f, Free)
    requires |k.free| > 0 && f == k.free[0] && h == Taken(k).(data := k.data[f := Filled(0)])
    requires Mapped(h, n, d, a, 1, f, WU)
    ensures n.owner.Keys == m.owner.Keys && forall g | g in m.owner :: OnlyGrown(m, n, d, lo, a + 1, g)
    ensures forall g | g in m.owner && m.owner[g] != Free :: SameData(m, n, g)
  {
    hide Lookup, Filled;
    forall g | g in m.owner
      ensures OnlyGrown(m, n, d, lo, a + 1, g)
    {
      assert OnlyGrown(m, k, d, lo, a, g);
    }
    forall g | g in m.owner && m.owner[g] != Free
      ensures SameData(m, n, g)
    {
      assert OnlyGrown(m, k, d, lo, a, g) && SameData(m, k, g);
    }
  }

  /** A failed allocuvm: what was mapped is unmapped again; only page tables stay behind. */
  lemma GrowFails(m: Mem, k: Mem, n: Mem, d: int, lo: int, a: int, hi: int)
    requires Inv(m) && Is(m, d, Dir) && 0 <= lo <= a <= hi <= KPAGE && Grown(m, k, d, lo, a) && Shrunk(k, n, d, lo, hi)
    requires forall w | lo <= w < hi :: !Lookup(m, d, w).present
    ensures Grown(m, n, d, lo, lo)
  {
    hide Filled, RoleOk;
    forall f | f in m.owner
      ensures OnlyGrown(m, n, d, lo, lo, f)
    {
      assert OnlyGrown(m, k, d, lo, a, f);
      UserIsMapped(m, d, f);
    }
    forall f | f in m.owner && m.owner[f] != Free
      ensures SameData(m, n, f)
    {
      assert OnlyGrown(m, k, d, lo, a, f) && SameData(m, k, f) && OnlyGrown(m, n, d, lo, lo, f);
    }
    forall e, w | Is(m, e, Dir) && 0 <= w < NPAGES
      ensures Lookup(n, e, w) == Lookup(m, e, w)
    {
      assert OnlyGrown(m, k, d, lo, a, e);
      assert Is(k, e, Dir);
    }
  }

  lemma {:induction false} PresentGrown(m: Mem, k: Mem, d: int, lo: int, a: int, hi: int)
    requires 0 <= lo <= a <= KPAGE && lo <= hi <= KPAGE && Is(m, d, Dir) && Grown(m, k, d, lo, a)
    requires forall w | lo <= w < hi :: !Lookup(m, d, w).present
    ensures PresentIn(k, d, lo, hi) == (if hi < a then hi else a) - lo
    decreases hi
  {
    hide Lookup, OnlyGrown;
    if lo < hi {
      PresentGrown(m, k, d, lo, a, hi - 1);
      var w := hi - 1;
      assert if lo <= w < a then FreshZero(m, k, d, w) else Lookup(k, d, w) == Lookup(m, d, w);
    }
  }

  lemma {:induction false} PresentSame(k: Mem, h: Mem, d: int, lo: int, hi: int)
    requires 0 <= lo <= hi <= KPAGE && h.tabs == k.tabs
    ensures PresentIn(h, d, lo, hi) == PresentIn(k, d, lo, hi)
    decreases hi
  {
    if lo < hi { PresentSame(k, h, d, lo, hi - 1); }
  }

  /** A failed growth: it ran out of frames at page `at`.  All mappings are as before, every page it
      had mapped is free again, and exactly the tables made for the pages before `at` stay behind. */
  ghost predicate FailedGrowth(m: Mem, n: Mem, d: int, lo: int, hi: int, at: int) {
    && 0 <= lo <= at < hi <= KPAGE && Grown(m, n, d, lo, lo)
    && Need(m, d, lo, at) <= |m.free| < Need(m, d, lo, at + 1)
    && |n.free| == |m.free| - (Need(m, d, lo, at) - (at - lo))
    && TabsUpTo(m, n, d, lo, at)
  }

  /** Every frame comes back from a failed growth if and only if every page that the free list could
      have reached, with a frame to spare for its table, has its table already. */
  lemma AllFramesBackIff(m: Mem, n: Mem, d: int, lo: int, hi: int, at: int)
    requires Inv(m) && Inv(n) && Is(m, d, Dir) && FailedGrowth(m, n, d, lo, hi, at)
    ensures n.owner == m.owner <==> forall v | lo <= v < hi && v - lo + 2 <= |m.free| :: HasTab(m, d, v / 1024)
  {
    hide Inv, Lookup, Grown, TabsUpTo, HasTab;
    var all := forall v | lo <= v < at :: HasTab(m, d, v / 1024);
    FailsWhere(m, d, lo, at);
    GrownDir(m, n, d, lo, lo);
    if all {
      TablesAsBefore(m, n, d, lo, at);
      SameOwner(m, n, d, lo);
    } else {
      var v := FirstMissing(m, d, lo, at);
      NeedAtMissing(m, d, lo, v, at);
      TableMade(m, n, d, lo, at, v);
      NewTableOwner(m, n, d, v / 1024);
    }
  }

  /** With all tables in place before the failing page, the free list was just long enough to get
      there, or one longer and the table of that page is missing. */
  lemma FailsWhere(m: Mem, d: int, lo: int, at: int)
    requires 0 <= lo <= at < KPAGE && Need(m, d, lo, at) <= |m.free| < Need(m, d, lo, at + 1)
    ensures (forall v | lo <= v < at :: HasTab(m, d, v / 1024)) ==> |m.free| <= at - lo + 1
    ensures (forall v | lo <= v < at :: HasTab(m, d, v / 1024)) && |m.free| == at - lo + 1 ==> !HasTab(m, d, at / 1024)
  {
    hide HasTab;
    if forall v | lo <= v < at :: HasTab(m, d, v / 1024) { NeedWithTables(m, d, lo, at); }
  }

  lemma {:induction false} NeedWithTables(m: Mem, d: int, lo: int, a: int)
    requires 0 <= lo <= a <= KPAGE && forall v | lo <= v < a :: HasTab(m, d, v / 1024)
    ensures Need(m, d, lo, a) == a - lo
    decreases a
  {
    hide HasTab;
    if lo < a { NeedWithTables(m, d, lo, a - 1); }
  }

  /** The first page whose table is missing. */
  lemma FirstMissing(m: Mem, d: int, lo: int, a: int) returns (v: int)
    requires 0 <= lo <= a <= KPAGE && exists w :: lo <= w < a && !HasTab(m, d, w / 1024)
    ensures lo <= v < a && !HasTab(m, d, v / 1024) && forall w | lo <= w < v :: HasTab(m, d, w / 1024)
  {
    hide HasTab;
    v := lo;
    while HasTab(m, d, v / 1024)
      invariant lo <= v < a && forall w | lo <= w < v :: HasTab(m, d, w / 1024)
      decreases a - v
    {
      v := v + 1;
    }
  }

  /** A growth that got past the first missing table had two frames for that page. */
  lemma NeedAtMissing(m: Mem, d: int, lo: int, v: int, at: int)
    requires 0 <= lo <= v < at < KPAGE && !HasTab(m, d, v / 1024) && forall w | lo <= w < v :: HasTab(m, d, w / 1024)
    ensures Need(m, d, lo, at) >= v - lo + 2
  {
    hide HasTab;
    NeedWithTables(m, d, lo, v);
    SameTable(v);
    assert lo < v ==> HasTab(m, d, (v - 1) / 1024);
    NeedGrows(m, d, lo, v + 1, at);
  }

  lemma SameTable(v: int)
    ensures v % 1024 != 0 ==> (v - 1) / 1024 == v / 1024
  {
  }

  lemma TablesAsBefore(m: Mem, n: Mem, d: int, lo: int, at: int)
    requires 0 <= lo <= at <= KPAGE && TabsUpTo(m, n, d, lo, at) && forall v | lo <= v < at :: HasTab(m, d, v / 1024)
    ensures forall x | 0 <= x < 1024 :: HasTab(n, d, x) ==> HasTab(m, d, x)
  {
    hide HasTab;
    forall x | 0 <= x < 1024 && HasTab(n, d, x)
      ensures HasTab(m, d, x)
    {
      if lo < at && lo / 1024 <= x <= (at - 1) / 1024 {
        var v := if x * 1024 < lo then lo else x * 1024;
        assert v / 1024 == x;
      }
    }
  }

  lemma SameOwner(m: Mem, n: Mem, d: int, lo: int)
    requires Inv(m) && Inv(n) && Is(m, d, Dir) && Grown(m, n, d, lo, lo)
    requires forall x | 0 <= x < 1024 :: HasTab(n, d, x) ==> HasTab(m, d, x)
    ensures n.owner == m.owner
  {
    hide Lookup, FreeOk;
    forall f | f in m.owner
      ensures n.owner[f] == m.owner[f]
    {
      assert OnlyGrown(m, n, d, lo, lo, f) && RoleOk(n, f) && RoleOk(m, d);
      if n.owner[f].Table? && n.owner[f].d == d {
        var x := n.owner[f].x;
        assert HasTab(n, d, x);
        var g := m.tabs[d][x].frame;
        assert Is(m, g, Table(d, x));
        assert OnlyGrown(m, n, d, lo, lo, g) && RoleOk(n, g);
      }
    }
  }

  lemma TableMade(m: Mem, n: Mem, d: int, lo: int, at: int, v: int)
    requires 0 <= lo <= v < at <= KPAGE && TabsUpTo(m, n, d, lo, at)
    ensures HasTab(n, d, v / 1024)
  {
    hide HasTab;
  }

  lemma NewTableOwner(m: Mem, n: Mem, d: int, x: int)
    requires Inv(m) && Inv(n) && Is(m, d, Dir) && Is(n, d, Dir) && 0 <= x < 1024 && HasTab(n, d, x) && !HasTab(m, d, x)
    ensures n.owner != m.owner
  {
    hide Lookup, FreeOk;
    var t := n.tabs[d][x].frame;
    assert RoleOk(n, d);
    if t in m.owner { assert RoleOk(m, t); }
  }

  lemma UserIsMapped(m: Mem, d: int, f: int)
    requires Inv(m) && f in m.owner
    ensures m.owner[f].User? ==>
      Is(m, m.owner[f].d, Dir) && 0 <= m.owner[f].v < KPAGE && Lookup(m, m.owner[f].d, m.owner[f].v).present
  {
  }

  lemma GrowsNothing(m: Mem, d: int, lo: int)
    requires Inv(m) && 0 <= lo <= KPAGE
    ensures Grown(m, m, d, lo, lo) && TabsUpTo(m, m, d, lo, lo) && Need(m, d, lo, lo) == 0
  {
  }

  lemma GrownDir(m: Mem, n: Mem, d: int, lo: int, hi: int)
    requires Grown(m, n, d, lo, hi)
    ensures forall e | Is(m, e, Dir) :: Is(n, e, Dir)
  {
  }

  /** The state in which allocuvm calls mappages. */
  lemma GrowReady(m: Mem, k: Mem, h: Mem, d: int, lo: int, a: int, f: int)
    requires Inv(m) && Inv(k) && Is(m, d, Dir) && 0 <= lo <= a < KPAGE && Grown(m, k, d, lo, a)
    requires |k.free| > 0 && f == k.free[0] && h == Taken(k).(data := k.data[f := Filled(0)])
    ensures Inv(h) && SameMap(k, h) && Is(h, f, Held) && Is(h, d, Dir) && Lookup(h, d, a) == Lookup(m, d, a)
  {
    hide Inv, Filled, RoleOk;
    TakenKeeps(k, Taken(k));
    DataKeeps(Taken(k), h, f, Filled(0));
    LookupIgnoresData(k, h);
    GrownDir(m, k, d, lo, a);
    assert Is(k, d, Dir);
  }

  lemma TabsOfTaken(k: Mem, h: Mem, d: int)
    requires h.tabs == k.tabs
    ensures forall x | 0 <= x < 1024 :: HasTab(h, d, x) <==> HasTab(k, d, x)
  {
  }

  /** What allocuvm leaves behind when kalloc has no page for it. */
  lemma GrowFailed(m: Mem, k: Mem, n: Mem, d: int, lo: int, a: int, hi: int)
    requires Inv(m) && Is(m, d, Dir) && 0 <= lo <= a <= hi <= KPAGE && Grown(m, k, d, lo, a)
    requires forall w | lo <= w < hi :: !Lookup(m, d, w).present
    requires Shrunk(k, n, d, lo, hi) && |n.free| == |k.free| + PresentIn(k, d, lo, hi) && a < hi
    requires TabsUpTo(m, k, d, lo, a)
    requires |k.free| == |m.free| - Need(m, d, lo, a) && |m.free| < Need(m, d, lo, a + 1) && Is(k, d, Dir)
    ensures FailedGrowth(m, n, d, lo, hi, a)
  {
    hide Inv, Lookup, Grown, Shrunk, TabsUpTo, Need;
    GrowFails(m, k, n, d, lo, a, hi);
    PresentGrown(m, k, d, lo, a, hi);
    TabsShrunk(m, k, n, d, lo, a, hi);
  }

  lemma HeldStays(h: Mem, n: Mem, d: int, lo: int, hi: int, f: int)
    requires Shrunk(h, n, d, lo, hi) && Is(h, f, Held)
    ensures Is(n, f, Held)
  {
  }

  lemma TabsShrunk(m: Mem, k: Mem, n: Mem, d: int, lo: int, a: int, hi: int)
    requires TabsUpTo(m, k, d, lo, a) && Shrunk(k, n, d, lo, hi) && Is(k, d, Dir)
    ensures TabsUpTo(m, n, d, lo, a)
  {
    hide Lookup;
    assert d in k.tabs && d in n.tabs && n.tabs[d] == k.tabs[d];
    forall x | 0 <= x < 1024
      ensures HasTab(n, d, x) <==> HasTab(k, d, x)
    {
    }
  }

  /** What it leaves behind when mappages has no table: the page is still in its hands. */
  lemma GrowUndone(m: Mem, k: Mem, h: Mem, n: Mem, d: int, lo: int, a: int, hi: int, f: int)
    requires Inv(m) && Inv(k) && Inv(n) && Is(m, d, Dir) && 0 <= lo <= a < hi <= KPAGE && Grown(m, k, d, lo, a)
    requires forall w | lo <= w < hi :: !Lookup(m, d, w).present
    requires |k.free| > 0 && f == k.free[0] && h == Taken(k).(data := k.data[f := Filled(0)]) && Inv(h)
    requires Shrunk(h, n, d, lo, hi) && |n.free| == |h.free| + PresentIn(h, d, lo, hi)
    requires TabsUpTo(m, k, d, lo, a) && Is(k, d, Dir) && Is(k, f, Free)
    requires |k.free| == |m.free| - Need(m, d, lo, a) && |m.free| < Need(m, d, lo, a + 1)
    ensures FailedGrowth(m, Put(n, f), d, lo, hi, a)
  {
    hide Inv, Lookup, Filled, RoleOk, Grown, TabsUpTo, Need, FailedGrowth, Shrunk;
    LookupIgnoresData(k, h);
    TakenKeeps(k, Taken(k));
    PresentSame(k, h, d, lo, hi);
    PageBack(k, h, n, d, lo, hi, f);
    GrowFailed(m, k, Put(n, f), d, lo, a, hi);
  }

  /** The page in hand is one that kfree takes, and then everything is as if it had never been taken. */
  lemma PageBack(k: Mem, h: Mem, n: Mem, d: int, lo: int, hi: int, f: int)
    requires Inv(k) && Inv(h) && Inv(n) && 0 <= lo < hi <= KPAGE && |k.free| > 0 && f == k.free[0]
    requires h == Taken(k).(data := k.data[f := Filled(0)])
    requires Shrunk(h, n, d, lo, hi) && Is(k, d, Dir) && Is(k, f, Free)
    ensures Is(n, f, Held) && f > 0 && InPool(n, f) && Shrunk(k, Put(n, f), d, lo, hi)
  {
    hide Inv, Lookup, Filled, RoleOk, Shrunk;
    TakenKeeps(k, Taken(k));
    assert Is(h, f, Held);
    HeldStays(h, n, d, lo, hi, f);
    OwnerPositive(n, f);
    PutKeeps(n, Put(n, f), f);
    UndoneShrunk(k, h, n, Put(n, f), d, lo, hi, f);
  }

  /** The user pages [lo, hi) of d are unmapped, whatever they were, and all other pages are as before. */
  ghost predicate Dropped(m: Mem, n: Mem, d: int, lo: int, hi: int) {
    forall e, w | Is(m, e, Dir) && 0 <= w < NPAGES ::
      Lookup(n, e, w) == if e == d && lo <= w < hi then NIL else Lookup(m, e, w)
  }

  /** A failed growth over pages that were mapped loses them. */
  lemma GrowLoses(m: Mem, k: Mem, n: Mem, d: int, lo: int, a: int, hi: int)
    requires Grown(m, k, d, lo, a) && Shrunk(k, n, d, lo, hi) && 0 <= lo <= a <= hi <= KPAGE
    ensures Dropped(m, n, d, lo, hi)
  {
    hide Lookup, FreshZero;
    GrownDir(m, k, d, lo, a);
  }

  lemma UndoneShrunk(k: Mem, h: Mem, n: Mem, k2: Mem, d: int, lo: int, hi: int, f: int)
    requires Inv(k) && |k.free| > 0 && f == k.free[0] && Is(k, f, Free)
    requires h == Taken(k).(data := k.data[f := Filled(0)]) && Inv(n)
    requires Shrunk(h, n, d, lo, hi) && k2 == Put(n, f) && SameMap(n, k2)
    ensures Shrunk(k, k2, d, lo, hi)
  {
  }

  // ----- setupkvm -----

  /** A line of kmap, in pages. */
  datatype Kmap = Kmap(virt: int, physStart: int, physEnd: int, flags: Flags)

  const DEVSPACE: int := 0xF_E000
  const EXTMEM: int := 0x100

  /** The memory map in bytes: 4 gigabytes of virtual pages, the kernel in the upper half, 224 megabytes of
      memory of which the first is for devices, and more devices at the top. */
  lemma MemoryMap()
    ensures NPAGES * PGSIZE == 0x1_0000_0000 && KPAGE * PGSIZE == KERNBASE == 0x8000_0000 && PGSIZE == 4096
    ensures PHYSTOP * PGSIZE == 224 * 0x10_0000 && EXTMEM * PGSIZE == 0x10_0000 && DEVSPACE * PGSIZE == 0xFE00_0000
  {
  }

  /** `data` is the page number of the kernel's data segment, as a physical address. */
  function KMAP(data: int): seq<Kmap> {
    [ Kmap(KPAGE, 0, EXTMEM, Flags(true, false)),
      Kmap(KPAGE + EXTMEM, EXTMEM, data, Flags(false, false)),
      Kmap(KPAGE + data, data, PHYSTOP, Flags(true, false)),
      Kmap(DEVSPACE, DEVSPACE, 0, Flags(true, false)) ]
  }

  function KSize(k: Kmap): int { (k.physEnd - k.physStart) % NPAGES }

  /** What page v maps to after the first i lines. */
  function KernelUpTo(data: int, i: nat, v: int): Pte
    requires i <= 4
  {
    if i == 0 then NIL
    else
      var k := KMAP(data)[i - 1];
      if k.virt <= v < k.virt + KSize(k) then Pte(true, k.flags, k.physStart + v - k.virt)
      else KernelUpTo(data, i - 1, v)
  }

  /** The kernel's view of memory: physical memory at KERNBASE, text read-only, devices in place. */
  function KernelPte(data: int, v: int): Pte {
    if KPAGE <= v < KPAGE + PHYSTOP then Pte(true, Flags(!(EXTMEM <= v - KPAGE < data), false), v - KPAGE)
    else if DEVSPACE <= v < NPAGES then Pte(true, Flags(true, false), v)
    else NIL
  }

  lemma KernelMapComplete(data: int, v: int)
    requires EXTMEM < data < PHYSTOP && v < NPAGES
    ensures KernelUpTo(data, 4, v) == KernelPte(data, v)
  {
    assert KernelUpTo(data, 1, v) == if KPAGE <= v < KPAGE + EXTMEM then Pte(true, Flags(true, false), v - KPAGE)
      else NIL;
    assert KernelUpTo(data, 2, v) == if KPAGE + EXTMEM <= v < KPAGE + data
      then Pte(true, Flags(false, false), v - KPAGE) else KernelUpTo(data, 1, v);
    assert KernelUpTo(data, 3, v) == if KPAGE + data <= v < KPAGE + PHYSTOP
      then Pte(true, Flags(true, false), v - KPAGE) else KernelUpTo(data, 2, v);
  }

  lemma KernelLine(data: int, i: nat)
    requires EXTMEM < data < PHYSTOP && i < 4
    ensures var k := KMAP(data)[i];
      && k.virt >= KPAGE && KSize(k) >= 1 && k.virt + KSize(k) <= NPAGES
      && forall v | k.virt <= v < k.virt + KSize(k) :: KernelUpTo(data, i, v) == NIL
  {
    if i >= 1 {
      assert forall v | v >= KPAGE + EXTMEM :: KernelUpTo(data, 1, v) == NIL;
    }
    if i >= 2 {
      assert forall v | v >= KPAGE + data :: KernelUpTo(data, 2, v) == NIL;
    }
    if i >= 3 {
      assert forall v | v >= KPAGE + PHYSTOP :: KernelUpTo(data, 3, v) == NIL;
    }
  }

  /** Only free frames changed hands, and they went to directory d. */
  ghost predicate AddedTo(m: Mem, n: Mem, d: int) {
    && n.owner.Keys == m.owner.Keys
    && (forall f | f in m.owner :: n.owner[f] == m.owner[f] || (m.owner[f] == Free && Belongs(n.owner[f], f, d)))
    && (forall f | f in m.owner && m.owner[f] != Free :: SameData(m, n, f))
    && (forall e, w | Is(m, e, Dir) && 0 <= w < NPAGES :: Lookup(n, e, w) == Lookup(m, e, w))
  }

  /** Every frame has its old use, every mapping is as before, no frame in use changed. */
  ghost predicate Restored(m: Mem, n: Mem) {
    n.owner == m.owner && SameMap(m, n) && forall f | f in m.owner && m.owner[f] != Free :: SameData(m, n, f)
  }

  lemma NothingHappened(m: Mem)
    requires Inv(m)
    ensures Restored(m, m)
  {
  }

  /** Making a directory and then dropping it gives every frame back. */
  lemma AddThenGone(m: Mem, k: Mem, n: Mem, d: int)
    requires Inv(m) && Is(m, d, Free) && AddedTo(m, k, d) && Gone(k, n, d)
    ensures Restored(m, n)
  {
  }

  lemma AddedDir(m: Mem, n: Mem, d: int)
    requires Inv(m) && |m.free| > 0 && d == m.free[0] && n == NewDir(Taken(m), d)
    ensures AddedTo(m, n, d)
  {
  }

  /** Mapping kernel pages of the new directory d. */
  lemma AddedMore(m: Mem, k: Mem, n: Mem, d: int, v: int, done: int, pa: int, flags: Flags)
    requires Is(m, d, Free) && AddedTo(m, k, d) && v >= KPAGE && Mapped(k, n, d, v, done, pa, flags)
    ensures AddedTo(m, n, d)
  {
  }

  lemma MappedDir(m: Mem, n: Mem, d: int, v: int, done: int, pa: int, flags: Flags)
    requires 0 <= v && Mapped(m, n, d, v, done, pa, flags) && Is(m, d, Dir) && !UserFrame(v, done, pa, d)
    ensures Is(n, d, Dir)
  {
  }

  lemma KernelNothing(data: int)
    ensures forall v :: KernelUpTo(data, 0, v) == NIL
  {
  }

  lemma KernelLineCount(data: int)
    ensures |KMAP(data)| == 4
  {
  }

  lemma KernelNext(data: int, m: Mem, n: Mem, d: int, i: nat)
    requires EXTMEM < data < PHYSTOP && i < 4 && Is(m, d, Dir)
    requires forall v | 0 <= v < NPAGES :: Lookup(m, d, v) == KernelUpTo(data, i, v)
    requires var k := KMAP(data)[i]; k.virt >= 0 && Mapped(m, n, d, k.virt, KSize(k), k.physStart, k.flags)
    ensures forall v | 0 <= v < NPAGES :: Lookup(n, d, v) == KernelUpTo(data, i + 1, v)
  {
  }

  // ----- copyuvm -----

  /** Page v under c has the same rights and bytes as it had under d, in a frame that was free. */
  ghost predicate Copied(m: Mem, n: Mem, d: int, c: int, v: int)
    requires 0 <= v < NPAGES
  {
    var p, q := Lookup(m, d, v), Lookup(n, c, v);
    && p.present && q.present && q.flags == p.flags && Is(m, q.frame, Free)
    && p.frame in m.data && q.frame in n.data && n.data[q.frame] == m.data[p.frame]
  }

  /** Directory c copies the first `count` pages of d and has the kernel's mappings besides. */
  ghost predicate CopyOf(m: Mem, n: Mem, d: int, c: int, count: int, data: int) {
    forall v | 0 <= v < NPAGES :: if v < count then Copied(m, n, d, c, v) else Lookup(n, c, v) == KernelPte(data, v)
  }

  lemma CopiesNothing(m: Mem, n: Mem, d: int, c: int, data: int)
    requires forall v | 0 <= v < NPAGES :: Lookup(n, c, v) == KernelPte(data, v)
    ensures CopyOf(m, n, d, c, 0, data)
  {
  }

  /** The parent's mapping and bytes are still what they were. */
  ghost predicate AllMapped(m: Mem, d: int, n: int) {
    forall v | 0 <= v < n && v < KPAGE :: Lookup(m, d, v).present
  }

  lemma ParentSame(m: Mem, k: Mem, d: int, c: int, v: int)
    requires Is(m, d, Dir) && AddedTo(m, k, c) && 0 <= v < KPAGE
    ensures Is(k, d, Dir) && Lookup(k, d, v) == Lookup(m, d, v)
  {
  }

  lemma ParentSeen(m: Mem, k: Mem, d: int, c: int, v: int)
    requires Inv(m) && Is(m, d, Dir) && AddedTo(m, k, c) && 0 <= v < KPAGE && Lookup(m, d, v).present
    ensures Is(k, d, Dir) && Lookup(k, d, v) == Lookup(m, d, v) && HasTab(k, d, v / 1024)
    ensures SameData(m, k, Lookup(m, d, v).frame)
  {
  }

  lemma FrameHasData(k: Mem, d: int, v: int)
    requires Inv(k) && Is(k, d, Dir) && 0 <= v < KPAGE && Lookup(k, d, v).present
    ensures Lookup(k, d, v).frame in k.data && Is(k, Lookup(k, d, v).frame, User(d, v))
  {
  }

  ghost predicate HoldsCopy(k: Mem, h: Mem, f: int, b: Page) {
    |k.free| > 0 && f == k.free[0] && h == Taken(k).(data := k.data[f := b])
  }

  lemma CopyReady(m: Mem, k: Mem, h: Mem, d: int, c: int, i: int, f: int, b: Page, data: int)
    requires Inv(k) && HoldsCopy(k, h, f, b) && AddedTo(m, k, c) && Is(k, c, Dir) && 0 <= i < KPAGE
    requires CopyOf(m, k, d, c, i, data)
    ensures Inv(h) && SameMap(k, h) && Is(h, f, Held) && Is(h, c, Dir) && Is(m, f, Free) && !Lookup(h, c, i).present
  {
    hide Inv, RoleOk, Lookup;
    TakenKeeps(k, Taken(k));
    DataKeeps(Taken(k), h, f, b);
    LookupIgnoresData(k, h);
    assert Is(k, f, Free);
    assert Lookup(k, c, i) == KernelPte(data, i);
  }

  lemma AddedHeld(m: Mem, k: Mem, h: Mem, n: Mem, c: int, f: int, b: Page)
    requires Inv(k) && HoldsCopy(k, h, f, b) && AddedTo(m, k, c) && n == Put(h, f) && Is(m, f, Free)
    requires Inv(h) && SameMap(k, h) && Is(k, f, Free)
    requires Is(k, c, Dir)
    ensures AddedTo(m, n, c) && Is(n, c, Dir)
  {
    hide Inv, Lookup, RoleOk, Filled;
    assert Is(h, f, Held);
    OwnerPositive(h, f);
    PutKeeps(h, n, f);
    forall g | g in m.owner && m.owner[g] != Free
      ensures SameData(m, n, g)
    {
      assert SameData(m, k, g);
    }
    forall e, w | Is(m, e, Dir) && 0 <= w < NPAGES
      ensures Lookup(n, e, w) == Lookup(m, e, w)
    {
      assert Is(k, e, Dir) && Is(h, e, Dir);
    }
  }

  lemma AddedUser(m: Mem, k: Mem, h: Mem, n: Mem, c: int, v: int, f: int, b: Page, flags: Flags)
    requires HoldsCopy(k, h, f, b) && AddedTo(m, k, c) && Is(m, f, Free) && Is(m, c, Free)
    requires 0 <= v < KPAGE && SameMap(k, h)
    requires Mapped(h, n, c, v, 1, f, flags)
    ensures AddedTo(m, n, c)
  {
    hide Lookup;
    forall g | g in m.owner
      ensures n.owner[g] == m.owner[g] || (m.owner[g] == Free && Belongs(n.owner[g], g, c))
    {
      if g != f { assert OnlyTables(h, n, c, g); }
    }
    forall g | g in m.owner && m.owner[g] != Free
      ensures SameData(m, n, g)
    {
      assert SameData(m, k, g);
    }
    forall e, w | Is(m, e, Dir) && 0 <= w < NPAGES
      ensures Lookup(n, e, w) == Lookup(m, e, w)
    {
      assert Is(k, e, Dir) && Is(h, e, Dir);
    }
  }

  lemma CopiesOne(m: Mem, k: Mem, h: Mem, n: Mem, d: int, c: int, i: int, f: int, pa: int, flags: Flags, data: int)
    requires Inv(k) && pa in k.data && HoldsCopy(k, h, f, k.data[pa]) && SameMap(k, h)
    requires Is(k, c, Dir) && Is(h, c, Dir) && 0 <= i < KPAGE
    requires CopyOf(m, k, d, c, i, data) && Mapped(h, n, c, i, 1, f, flags) && Is(m, f, Free) && Is(k, f, Free)
    requires Lookup(m, d, i) == Pte(true, flags, pa) && SameData(m, k, pa)
    ensures CopyOf(m, n, d, c, i + 1, data)
  {
    hide Lookup, Inv, KernelPte, RoleOk;
    forall v | 0 <= v < NPAGES
      ensures if v < i + 1 then Copied(m, n, d, c, v) else Lookup(n, c, v) == KernelPte(data, v)
    {
      assert Lookup(n, c, v) == if v == i then Pte(true, flags, f) else Lookup(k, c, v);
      if v < i {
        assert Copied(m, k, d, c, v);
        PageNotFree(k, c, v);
      }
    }
  }

  /** fork followed at once by freeing the child's memory leaves every frame as it was. */
  lemma ForkThenFree(m: Mem, k: Mem, n: Mem, c: int)
    requires Inv(m) && Is(m, c, Free) && AddedTo(m, k, c) && Gone(k, n, c)
    ensures forall f | f in m.owner :: f in n.owner && n.owner[f] == m.owner[f]
    ensures forall d, v | Is(m, d, Dir) && 0 <= v < KPAGE && Lookup(m, d, v).present ::
      Lookup(n, d, v) == Lookup(m, d, v) && SameData(m, n, Lookup(m, d, v).frame)
  {
    hide Lookup, Inv, Gone, AddedTo;
    AddThenGone(m, k, n, c);
    forall d, v | Is(m, d, Dir) && 0 <= v < KPAGE && Lookup(m, d, v).present
      ensures Lookup(n, d, v) == Lookup(m, d, v) && SameData(m, n, Lookup(m, d, v).frame)
    {
      PageNotFree(m, d, v);
    }
  }
}
