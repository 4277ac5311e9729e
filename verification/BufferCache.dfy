/** The buffer cache of bio.c over the disk of ide.c.  The cache must never show: `latest` is the
    plain disk in which every block holds what was last written to it. */
module BufferCache {
  import opened BufferRing

  type Block = seq<int>

  datatype Name = Name(dev: int, blockno: int)

  /** `holder` is the process that holds the buffer's sleep lock, -1 for none. */
  datatype Buf = Buf(name: Name, valid: bool, dirty: bool, refcnt: int, holder: int, data: Block)

  /** `users` are the processes between bget and brelse; `stamp` is the time a buffer last became idle. */
  datatype State = State(order: seq<int>, bufs: seq<Buf>, users: seq<multiset<int>>, stamp: seq<int>, clock: int,
                         disk: map<Name, Block>, latest: map<Name, Block>)

  predicate Busy(b: Buf) { b.valid || b.dirty || b.refcnt != 0 }

  predicate Idle(b: Buf) { b.refcnt == 0 && !b.dirty }

  // ----- the invariant -----

  ghost predicate Shape(s: State) {
    && |s.order| == |s.bufs| == |s.users| == |s.stamp| && s.disk.Keys == s.latest.Keys
    && Distinct(s.order, |s.bufs|)
    && (forall b | 0 <= b < |s.bufs| :: b in s.order)
  }

  /** Of buffers with one name only the first in the ring may be valid or in use. */
  ghost predicate FirstBusy(s: State, i: int, j: int)
    requires Shape(s) && 0 <= i < j < |s.order|
  {
    s.bufs[s.order[i]].name == s.bufs[s.order[j]].name ==> !Busy(s.bufs[s.order[j]])
  }

  ghost predicate BufOk(s: State, b: int)
    requires Shape(s) && 0 <= b < |s.bufs|
  {
    var f := s.bufs[b];
    && f.refcnt == |s.users[b]| && (f.holder != -1 ==> f.holder in s.users[b])
    && (f.dirty ==> f.valid)
    && (f.valid ==> f.name in s.disk && f.data == s.latest[f.name])
  }

  /** A buffer that was changed and neither written nor pinned. */
  predicate Unsaved(s: State, f: Buf) { f.valid && !f.dirty && f.name in s.disk && s.disk[f.name] != f.data }

  ghost predicate Holds(s: State, b: int, nm: Name) {
    0 <= b < |s.bufs| && s.bufs[b].valid && s.bufs[b].name == nm
  }

  ghost predicate NameOk(s: State, nm: Name)
    requires Shape(s) && nm in s.disk
  {
    s.disk[nm] == s.latest[nm] || exists b :: Holds(s, b, nm)
  }

  ghost predicate Later(s: State, i: int)
    requires Shape(s) && 0 <= i < |s.order|
  {
    s.stamp[s.order[i]] < s.clock && (i + 1 < |s.order| ==> s.stamp[s.order[i + 1]] < s.stamp[s.order[i]])
  }

  ghost predicate Inv(s: State) {
    && Shape(s)
    && (forall i, j | 0 <= i < j < |s.order| :: FirstBusy(s, i, j))
    && (forall b | 0 <= b < |s.bufs| :: BufOk(s, b))
    && (forall nm | nm in s.disk :: NameOk(s, nm))
    && (forall i | 0 <= i < |s.order| :: Later(s, i))
  }

  ghost function Position(s: State, b: int): (i: int)
    requires Shape(s) && 0 <= b < |s.bufs|
    ensures 0 <= i < |s.order| && s.order[i] == b
  {
    assert b in s.order;
    var i :| 0 <= i < |s.order| && s.order[i] == b;
    i
  }

  /** At most one valid or used buffer per block. */
  lemma BusyUnique(s: State, a: int, b: int)
    requires Inv(s) && 0 <= a < |s.bufs| && 0 <= b < |s.bufs| && Busy(s.bufs[a]) && Busy(s.bufs[b])
    requires s.bufs[a].name == s.bufs[b].name
    ensures a == b
  {
    hide BufOk, NameOk, Later;
    var i, j := Position(s, a), Position(s, b);
    assert i < j ==> FirstBusy(s, i, j);
    assert j < i ==> FirstBusy(s, j, i);
  }

  /** What the whole cache shows for a block is the plain disk: a valid buffer has the latest
      contents, and without one the disk has them. */
  lemma RefinesPlainDisk(s: State, nm: Name)
    requires Inv(s) && nm in s.disk
    ensures forall b | 0 <= b < |s.bufs| && Holds(s, b, nm) :: s.bufs[b].data == s.latest[nm]
    ensures (forall b :: !Holds(s, b, nm)) ==> s.disk[nm] == s.latest[nm]
  {
    forall b | 0 <= b < |s.bufs| && Holds(s, b, nm)
      ensures s.bufs[b].data == s.latest[nm]
    {
      assert BufOk(s, b);
    }
    assert NameOk(s, nm);
  }

  // ----- the steps -----

  /** bget finds the block in the k-th buffer of the ring. */
  ghost predicate Hit(s: State, t: State, p: int, nm: Name, k: int)
    requires Shape(s)
  {
    && 0 <= k < |s.order| && s.bufs[s.order[k]].name == nm
    && (forall i | 0 <= i < k :: s.bufs[s.order[i]].name != nm)
    && t == s.(bufs := s.bufs[s.order[k] := s.bufs[s.order[k]].(refcnt := s.bufs[s.order[k]].refcnt + 1)],
               users := s.users[s.order[k] := s.users[s.order[k]] + multiset{p}])
  }

  /** What the cache shows for a block once buffer f is recycled: an unsaved change is lost. */
  ghost function AfterLoss(s: State, f: Buf): map<Name, Block> {
    if Unsaved(s, f) then s.latest[f.name := s.disk[f.name]] else s.latest
  }

  /** bget recycles the k-th buffer: the last idle one of the ring. */
  ghost predicate Recycle(s: State, t: State, p: int, nm: Name, k: int)
    requires Shape(s)
  {
    && 0 <= k < |s.order| && (forall i | 0 <= i < |s.order| :: s.bufs[s.order[i]].name != nm)
    && Idle(s.bufs[s.order[k]]) && (forall i | k < i < |s.order| :: !Idle(s.bufs[s.order[i]]))
    && t == s.(bufs := s.bufs[s.order[k] :=
                             Buf(nm, false, false, 1, s.bufs[s.order[k]].holder, s.bufs[s.order[k]].data)],
               users := s.users[s.order[k] := multiset{p}],
               latest := AfterLoss(s, s.bufs[s.order[k]]))
  }

  /** One buffer's record changes; everything else but the disks stays. */
  ghost predicate Changed(s: State, t: State, b: int, f: Buf) {
    0 <= b < |s.bufs| && t == s.(bufs := s.bufs[b := f], disk := t.disk, latest := t.latest)
  }

  /** brelse, after the sleep lock was given up: the last user moves the buffer to the front. */
  ghost predicate Dropped(s: State, t: State, p: int, k: int)
    requires Shape(s)
  {
    && 0 <= k < |s.order|
    && var b := s.order[k];
       var r := s.bufs[b].refcnt - 1;
       && t == s.(bufs := s.bufs[b := s.bufs[b].(refcnt := r)], users := s.users[b := s.users[b] - multiset{p}],
               order := if r == 0 then [b] + Without(s.order, k) else s.order,
               stamp := if r == 0 then s.stamp[b := s.clock] else s.stamp,
               clock := if r == 0 then s.clock + 1 else s.clock)
  }

  lemma HitKeeps(s: State, t: State, p: int, nm: Name, k: int)
    requires Inv(s) && Hit(s, t, p, nm, k)
    ensures Inv(t)
  {
    var b0 := s.order[k];
    forall i, j | 0 <= i < j < |t.order|
      ensures FirstBusy(t, i, j)
    {
      assert FirstBusy(s, i, j);
    }
    forall b | 0 <= b < |t.bufs|
      ensures BufOk(t, b)
    {
      assert BufOk(s, b);
    }
    OthersKept(s, t);
  }

  /** Names with a holder keep it, and the ring's stamps are untouched. */
  lemma OthersKept(s: State, t: State)
    requires Inv(s) && Shape(t) && t.order == s.order && t.stamp == s.stamp && t.clock == s.clock
    requires t.disk == s.disk && t.latest == s.latest
    requires forall b | 0 <= b < |s.bufs| && s.bufs[b].valid :: t.bufs[b].valid && t.bufs[b].name == s.bufs[b].name
    ensures forall nm | nm in t.disk :: NameOk(t, nm)
    ensures forall i | 0 <= i < |t.order| :: Later(t, i)
  {
    forall nm | nm in t.disk
      ensures NameOk(t, nm)
    {
      assert NameOk(s, nm);
      if s.disk[nm] != s.latest[nm] {
        var b :| Holds(s, b, nm);
        assert Holds(t, b, nm);
      }
    }
    forall i | 0 <= i < |t.order|
      ensures Later(t, i)
    {
      assert Later(s, i);
    }
  }

  lemma RecycleKeeps(s: State, t: State, p: int, nm: Name, k: int)
    requires Inv(s) && Recycle(s, t, p, nm, k)
    ensures Inv(t) && s.bufs[s.order[k]].holder == -1
  {
    var b0 := s.order[k];
    assert BufOk(s, b0);
    assert s.users[b0] == multiset{};
    forall i, j | 0 <= i < j < |t.order|
      ensures FirstBusy(t, i, j)
    {
      assert FirstBusy(s, i, j);
    }
    forall b | 0 <= b < |t.bufs|
      ensures BufOk(t, b)
    {
      assert BufOk(s, b);
      if Unsaved(s, s.bufs[b0]) && s.bufs[b].valid && s.bufs[b].name == s.bufs[b0].name { BusyUnique(s, b, b0); }
    }
    forall m | m in t.disk
      ensures NameOk(t, m)
    {
      assert NameOk(s, m);
      if t.disk[m] != t.latest[m] {
        var b :| Holds(s, b, m);
        assert b != b0;
        assert Holds(t, b, m);
      }
    }
    forall i | 0 <= i < |t.order|
      ensures Later(t, i)
    {
      assert Later(s, i);
    }
  }

  /** The recycled buffer is the one released longest ago among all idle clean buffers. */
  lemma RecyclesLeastRecent(s: State, t: State, p: int, nm: Name, k: int, b: int)
    requires Inv(s) && Recycle(s, t, p, nm, k) && 0 <= b < |s.bufs| && Idle(s.bufs[b])
    ensures s.stamp[s.order[k]] <= s.stamp[b]
  {
    hide FirstBusy, BufOk, NameOk;
    var i := Position(s, b);
    StampsFall(s, i, k);
  }

  lemma {:induction false} StampsFall(s: State, i: int, j: int)
    requires Inv(s) && 0 <= i <= j < |s.order|
    ensures s.stamp[s.order[j]] <= s.stamp[s.order[i]] && (i < j ==> s.stamp[s.order[j]] < s.stamp[s.order[i]])
    decreases j - i
  {
    hide FirstBusy, BufOk, NameOk, Shape;
    if i < j {
      StampsFall(s, i, j - 1);
      assert Later(s, j - 1);
    }
  }

  /** A locked or waited-for buffer is never given another name. */
  lemma UsedBuffersStay(s: State, t: State, p: int, nm: Name, k: int, b: int)
    requires Inv(s) && (Hit(s, t, p, nm, k) || Recycle(s, t, p, nm, k)) && 0 <= b < |s.bufs|
    requires s.users[b] != multiset{} || s.bufs[b].dirty
    ensures t.bufs[b].name == s.bufs[b].name && t.bufs[b].data == s.bufs[b].data && t.bufs[b].valid == s.bufs[b].valid
  {
    assert BufOk(s, b);
  }

  /** A change of one buffer that keeps its name and users. */
  lemma ChangeKeeps(s: State, t: State, b: int, f: Buf)
    requires Inv(s) && Changed(s, t, b, f) && f.name == s.bufs[b].name && Shape(t) && BufOk(t, b)
    requires Busy(f) ==> Busy(s.bufs[b])
    requires s.bufs[b].valid ==> f.valid
    requires forall nm | nm in s.disk && nm != f.name ::
      nm in t.disk && t.disk[nm] == s.disk[nm] && t.latest[nm] == s.latest[nm]
    requires t.disk.Keys == s.disk.Keys
    requires f.name in s.disk ==>
      f.valid || (t.disk[f.name] == s.disk[f.name] && t.latest[f.name] == s.latest[f.name])
    requires Busy(s.bufs[b])
    ensures Inv(t)
  {
    forall i, j | 0 <= i < j < |t.order|
      ensures FirstBusy(t, i, j)
    {
      assert FirstBusy(s, i, j);
    }
    forall c | 0 <= c < |t.bufs|
      ensures BufOk(t, c)
    {
      assert BufOk(s, c);
      if c != b && s.bufs[c].valid && s.bufs[c].name == f.name { BusyUnique(s, b, c); }
    }
    forall nm | nm in t.disk
      ensures NameOk(t, nm)
    {
      assert NameOk(s, nm);
      if nm == f.name {
        if f.valid { assert Holds(t, b, nm); }
      }
      if nm != f.name || !f.valid {
        NameKept(s, t, b, f, nm);
      }
    }
    forall i | 0 <= i < |t.order|
      ensures Later(t, i)
    {
      assert Later(s, i);
    }
  }

  lemma NameKept(s: State, t: State, b: int, f: Buf, nm: Name)
    requires Shape(s) && Shape(t) && Changed(s, t, b, f) && f.name == s.bufs[b].name && (s.bufs[b].valid ==> f.valid)
    requires nm in s.disk && nm in t.disk && t.disk[nm] == s.disk[nm] && t.latest[nm] == s.latest[nm] && NameOk(s, nm)
    ensures NameOk(t, nm)
  {
    if s.disk[nm] != s.latest[nm] {
      var c :| Holds(s, c, nm);
      assert Holds(t, c, nm);
    }
  }

  lemma DropKeeps(s: State, t: State, p: int, k: int)
    requires Inv(s) && Dropped(s, t, p, k) && p in s.users[s.order[k]]
    requires s.bufs[s.order[k]].holder == p ==> s.users[s.order[k]][p] > 1
    ensures Inv(t)
  {
    hide FirstBusy, BufOk, NameOk, Later;
    DropShape(s, t, p, k);
    DropBufs(s, t, p, k);
    DropNames(s, t, p, k);
    forall i, j | 0 <= i < j < |t.order|
      ensures FirstBusy(t, i, j)
    {
      DropFirst(s, t, p, k, i, j);
    }
    forall i | 0 <= i < |t.order|
      ensures Later(t, i)
    {
      DropLater(s, t, p, k, i);
    }
  }

  lemma DropShape(s: State, t: State, p: int, k: int)
    requires Shape(s) && Dropped(s, t, p, k)
    ensures Shape(t)
  {
    FrontDistinct(s.order, |s.bufs|, k);
    forall b | 0 <= b < |t.bufs|
      ensures b in t.order
    {
      assert b in s.order;
      FrontKeeps(s.order, k, b);
    }
  }

  lemma DropBufs(s: State, t: State, p: int, k: int)
    requires Shape(s) && Shape(t) && Dropped(s, t, p, k) && p in s.users[s.order[k]]
    requires s.bufs[s.order[k]].holder == p ==> s.users[s.order[k]][p] > 1
    requires forall b | 0 <= b < |s.bufs| :: BufOk(s, b)
    ensures forall b | 0 <= b < |t.bufs| :: BufOk(t, b)
  {
    hide FirstBusy, NameOk, Later;
    forall b | 0 <= b < |t.bufs|
      ensures BufOk(t, b)
    {
      assert BufOk(s, b);
    }
  }

  lemma DropNames(s: State, t: State, p: int, k: int)
    requires Shape(s) && Shape(t) && Dropped(s, t, p, k) && forall nm | nm in s.disk :: NameOk(s, nm)
    ensures forall nm | nm in t.disk :: NameOk(t, nm)
  {
    forall nm | nm in t.disk
      ensures NameOk(t, nm)
    {
      assert NameOk(s, nm);
      if s.disk[nm] != s.latest[nm] {
        var b :| Holds(s, b, nm);
        assert Holds(t, b, nm);
      }
    }
  }

  /** Position i of the new ring was position Was(k, i) of the old one. */
  function Was(k: int, i: int): int { if i == 0 then k else if i <= k then i - 1 else i }

  lemma DropFirst(s: State, t: State, p: int, k: int, i: int, j: int)
    requires Inv(s) && Shape(t) && Dropped(s, t, p, k) && p in s.users[s.order[k]] && 0 <= i < j < |t.order|
    ensures FirstBusy(t, i, j)
  {
    hide NameOk, Later;
    var b := s.order[k];
    assert BufOk(s, b);
    if s.bufs[b].refcnt != 1 {
      assert FirstBusy(s, i, j);
    } else {
      assert t.order[i] == s.order[Was(k, i)] && t.order[j] == s.order[Was(k, j)];
      if i > 0 {
        assert FirstBusy(s, Was(k, i), Was(k, j));
      } else if Was(k, j) > k {
        assert FirstBusy(s, k, Was(k, j));
      } else {
        assert FirstBusy(s, Was(k, j), k);
      }
    }
  }

  lemma WasAt(order: seq<int>, k: int, i: int)
    requires 0 <= k < |order| && 0 <= i < |order|
    ensures ([order[k]] + Without(order, k))[i] == order[Was(k, i)]
  {
  }

  lemma DropLater(s: State, t: State, p: int, k: int, i: int)
    requires Inv(s) && Shape(t) && Dropped(s, t, p, k) && 0 <= i < |t.order|
    ensures Later(t, i)
  {
    hide NameOk, FirstBusy, BufOk, Without;
    if s.bufs[s.order[k]].refcnt != 1 {
      assert Later(s, i);
    } else {
      WasAt(s.order, k, i);
      assert Later(s, Was(k, i));
      if i + 1 < |t.order| {
        WasAt(s.order, k, i + 1);
        if i > 0 { StampsFall(s, Was(k, i), Was(k, i + 1)); }
        assert Later(s, Was(k, i + 1));
      }
    }
  }

  // ----- runs of many processes -----

  /** One step of a process: bget under bcache.lock, taking a free sleep lock, the rest of bread,
      a change of the bytes, log_write's mark, bwrite, and the two halves of brelse. */
  datatype Event =
    | Get(p: int, nm: Name, k: int)
    | Lock(p: int, b: int)
    | Load(p: int, b: int)
    | Write(p: int, b: int, data: Block)
    | Mark(p: int, b: int)
    | Flush(p: int, b: int)
    | Unlock(p: int, b: int)
    | Drop(p: int, b: int)

  /** p holds the sleep lock of buffer b. */
  predicate Held(s: State, p: int, b: int) { p != -1 && 0 <= b < |s.bufs| && s.bufs[b].holder == p }

  ghost predicate Next(s: State, t: State, e: Event) {
    && Shape(s)
    && match e
       case Get(p, nm, k) => Hit(s, t, p, nm, k) || Recycle(s, t, p, nm, k)
       case Lock(p, b) =>
         && p != -1 && 0 <= b < |s.bufs| && p in s.users[b] && s.bufs[b].holder == -1
         && t == s.(bufs := s.bufs[b := s.bufs[b].(holder := p)])
       case Load(p, b) =>
         && Held(s, p, b) && s.bufs[b].name in s.disk
         && t == if s.bufs[b].valid then s
                 else s.(bufs := s.bufs[b := s.bufs[b].(valid := true, data := s.disk[s.bufs[b].name])])
       case Write(p, b, data) =>
         && Held(s, p, b) && s.bufs[b].valid
         && t == s.(bufs := s.bufs[b := s.bufs[b].(data := data)], latest := s.latest[s.bufs[b].name := data])
       case Mark(p, b) => Held(s, p, b) && s.bufs[b].valid && t == s.(bufs := s.bufs[b := s.bufs[b].(dirty := true)])
       case Flush(p, b) =>
         && Held(s, p, b) && s.bufs[b].valid
         && t == s.(bufs := s.bufs[b := s.bufs[b].(dirty := false)], disk := s.disk[s.bufs[b].name := s.bufs[b].data])
       case Unlock(p, b) => Held(s, p, b) && t == s.(bufs := s.bufs[b := s.bufs[b].(holder := -1)])
       case Drop(p, b) =>
         && 0 <= b < |s.bufs| && p in s.users[b] && (s.bufs[b].holder == p ==> s.users[b][p] > 1)
         && Dropped(s, t, p, Position(s, b))
  }

  /** Steps of a process on a buffer it has locked, or is about to lock. */
  lemma ChangeStepKeeps(s: State, t: State, e: Event)
    requires Inv(s) && Next(s, t, e) && !e.Get? && !e.Drop?
    ensures Inv(t)
  {
    hide Position;
    var b := e.b;
    assert BufOk(s, b);
    if e.Load? { UniqueMeansDisk(s, b); }
    ChangeKeeps(s, t, b, t.bufs[b]);
  }

  lemma NextKeepsInv(s: State, t: State, e: Event)
    requires Inv(s) && Next(s, t, e)
    ensures Inv(t)
  {
    hide Inv, Shape, Hit, Recycle, Dropped;
    match e {
      case Get(p, nm, k) => if Hit(s, t, p, nm, k) { HitKeeps(s, t, p, nm, k); } else { RecycleKeeps(s, t, p, nm, k); }
      case Drop(p, b) => DropKeeps(s, t, p, Position(s, b));
      case _ => ChangeStepKeeps(s, t, e);
    }
  }

  /** A run from a cache that shows the disk as it is. */
  ghost predicate IsRun(ss: seq<State>, es: seq<Event>) {
    && |ss| == |es| + 1 && Inv(ss[0]) && ss[0].latest == ss[0].disk && AllSaved(ss[0])
    && forall n | 0 <= n < |es| :: Next(ss[n], ss[n + 1], es[n])
  }

  lemma {:induction false} RunKeepsInv(ss: seq<State>, es: seq<Event>, n: nat)
    requires IsRun(ss, es) && n < |ss|
    ensures Inv(ss[n]) && |ss[n].bufs| == |ss[0].bufs| && ss[n].disk.Keys == ss[0].disk.Keys
  {
    hide Inv, Next, AllSaved;
    if n > 0 {
      RunKeepsInv(ss, es, n - 1);
      assert Next(ss[n - 1], ss[n - 1 + 1], es[n - 1]);
      NextKeepsInv(ss[n - 1], ss[n], es[n - 1]);
      NextKeepsSize(ss[n - 1], ss[n], es[n - 1]);
    }
  }

  lemma NextKeepsSize(s: State, t: State, e: Event)
    requires Inv(s) && Next(s, t, e)
    ensures |t.bufs| == |s.bufs| && t.disk.Keys == s.disk.Keys
  {
    hide FirstBusy, NameOk, Later, Without;
    if !e.Get? { assert BufOk(s, e.b); }
  }

  /** While p is between its bget and its brelse, no step of anybody takes the buffer away, renames
      it or makes it invalid. */
  lemma StepKeepsUse(s: State, t: State, e: Event, p: int, b: int)
    requires Inv(s) && Next(s, t, e) && 0 <= b < |s.bufs| && p in s.users[b] && e != Drop(p, b)
    ensures |t.bufs| == |t.users| == |s.bufs| && p in t.users[b] && t.bufs[b].name == s.bufs[b].name
    ensures s.bufs[b].valid ==> t.bufs[b].valid
    ensures e.Load? && e.b == b ==> t.bufs[b].valid
  {
    hide FirstBusy, NameOk, Later, Without;
    assert BufOk(s, b);
  }

  /** Process p got buffer b for block nm in step i and has not given it back before step n. */
  ghost predicate Using(ss: seq<State>, es: seq<Event>, i: nat, n: nat, p: int, nm: Name, b: int) {
    && i < n < |ss| == |es| + 1 && es[i].Get? && es[i].p == p && es[i].nm == nm
    && 0 <= es[i].k < |ss[i].order| && ss[i].order[es[i].k] == b
    && forall j | i < j < n :: es[j] != Drop(p, b)
  }

  /** From bget to brelse, whatever the others do, the buffer keeps its name; and once it has been
      loaded, by whomever, it stays valid. */
  lemma {:induction false} BufferStays(ss: seq<State>, es: seq<Event>, i: nat, n: nat, p: int, nm: Name, b: int)
    requires IsRun(ss, es) && Using(ss, es, i, n, p, nm, b)
    ensures 0 <= b < |ss[n].bufs| == |ss[n].users| && p in ss[n].users[b] && ss[n].bufs[b].name == nm
    ensures (exists j :: i < j < n && es[j].Load? && es[j].b == b) ==> ss[n].bufs[b].valid
  {
    hide Inv, Next, AllSaved;
    var m := n - 1;
    assert Next(ss[m], ss[m + 1], es[m]);
    RunKeepsInv(ss, es, m);
    if m == i {
      GetStarts(ss[i], ss[i + 1], es[i]);
    } else {
      BufferStays(ss, es, i, m, p, nm, b);
      StepKeepsUse(ss[m], ss[n], es[m], p, b);
    }
  }

  lemma GetStarts(s: State, t: State, e: Event)
    requires Inv(s) && Next(s, t, e) && e.Get?
    ensures 0 <= e.k < |s.order| && 0 <= s.order[e.k] < |t.bufs| == |t.users|
    ensures e.p in t.users[s.order[e.k]] && t.bufs[s.order[e.k]].name == e.nm
  {
    hide FirstBusy, NameOk, Later, BufOk;
  }

  // ----- what was written last -----

  /** The contents of block nm according to the writes of all processes in the first n steps. */
  ghost function LastWritten(ss: seq<State>, es: seq<Event>, n: nat, nm: Name): Block
    requires n <= |es| < |ss| && nm in ss[0].latest
  {
    if n == 0 then ss[0].latest[nm]
    else
      var e := es[n - 1];
      if e.Write? && 0 <= e.b < |ss[n - 1].bufs| && ss[n - 1].bufs[e.b].name == nm then e.data
      else LastWritten(ss, es, n - 1, nm)
  }

  /** The step recycles a buffer of block nm with an unsaved change. */
  ghost predicate Loses(s: State, e: Event, nm: Name) {
    && e.Get? && 0 <= e.k < |s.order| && 0 <= s.order[e.k] < |s.bufs|
    && s.bufs[s.order[e.k]].name == nm != e.nm && Unsaved(s, s.bufs[s.order[e.k]])
  }

  /** Only a write to the block, or the loss of one, changes what the cache shows for it. */
  lemma NextShows(s: State, t: State, e: Event, nm: Name)
    requires Inv(s) && Next(s, t, e) && nm in s.latest
    ensures nm in t.latest
    ensures e.Write? && 0 <= e.b < |s.bufs| && s.bufs[e.b].name == nm ==> t.latest[nm] == e.data
    ensures !(e.Write? && 0 <= e.b < |s.bufs| && s.bufs[e.b].name == nm) ==>
      (t.latest[nm] == s.latest[nm] <==> !Loses(s, e, nm))
  {
    hide FirstBusy, NameOk, Later, Without;
    if !e.Get? {
      assert BufOk(s, e.b);
    } else if 0 <= e.k < |s.order| {
      assert BufOk(s, s.order[e.k]);
    }
  }

  lemma {:induction false} LatestIsLastWritten(ss: seq<State>, es: seq<Event>, n: nat, nm: Name)
    requires IsRun(ss, es) && n < |ss| && nm in ss[0].disk && forall j | 0 <= j < n :: !Loses(ss[j], es[j], nm)
    ensures nm in ss[n].latest && ss[n].latest[nm] == LastWritten(ss, es, n, nm)
  {
    hide Inv, Next, AllSaved, Loses;
    if n > 0 {
      LatestIsLastWritten(ss, es, n - 1, nm);
      assert Next(ss[n - 1], ss[n - 1 + 1], es[n - 1]);
      RunKeepsInv(ss, es, n - 1);
      NextShows(ss[n - 1], ss[n], es[n - 1], nm);
    }
  }

  /** In every interleaving, a process that has its buffer and has loaded it sees exactly what any
      process last wrote to the block, as long as no change of the block was thrown away. */
  lemma BreadYieldsLatest(ss: seq<State>, es: seq<Event>, i: nat, j: nat, n: nat, p: int, nm: Name, b: int)
    requires IsRun(ss, es) && Using(ss, es, i, n, p, nm, b) && i < j < n && es[j] == Load(p, b)
    requires nm in ss[0].disk && forall q | 0 <= q < n :: !Loses(ss[q], es[q], nm)
    ensures 0 <= b < |ss[n].bufs| && ss[n].bufs[b].name == nm && ss[n].bufs[b].valid
    ensures nm in ss[n].latest && ss[n].bufs[b].data == ss[n].latest[nm] == LastWritten(ss, es, n, nm)
  {
    hide Inv, Next, AllSaved, Loses;
    BufferStays(ss, es, i, n, p, nm, b);
    LatestIsLastWritten(ss, es, n, nm);
    RunKeepsInv(ss, es, n);
    BufHasLatest(ss[n], b);
  }

  // ----- saving -----

  /** No buffer that nobody has locked holds an unsaved change. */
  ghost predicate AllSaved(s: State) {
    forall b | 0 <= b < |s.bufs| && s.bufs[b].holder == -1 :: !Unsaved(s, s.bufs[b])
  }

  /** brelse comes only after bwrite or log_write of what was changed. */
  predicate SavesFirst(s: State, e: Event) { e.Unlock? && 0 <= e.b < |s.bufs| ==> !Unsaved(s, s.bufs[e.b]) }

  lemma SavingKeepsSaved(s: State, t: State, e: Event)
    requires Inv(s) && AllSaved(s) && Next(s, t, e) && SavesFirst(s, e)
    ensures AllSaved(t) && forall nm :: !Loses(s, e, nm)
  {
    hide FirstBusy, NameOk, Later, Without;
    if !e.Get? { assert BufOk(s, e.b); }
    forall b | 0 <= b < |t.bufs| && t.bufs[b].holder == -1
      ensures !Unsaved(t, t.bufs[b])
    {
      assert BufOk(s, b);
      if e.Flush? && b != e.b && s.bufs[b].valid && s.bufs[b].name == s.bufs[e.b].name { BusyUnique(s, b, e.b); }
    }
    forall nm
      ensures !Loses(s, e, nm)
    {
      if e.Get? && 0 <= e.k < |s.order| {
        assert BufOk(s, s.order[e.k]);
      }
    }
  }

  /** If every process saves before it releases, nothing is ever lost, so bread always yields the
      latest contents. */
  lemma {:induction false} SavingRunsLoseNothing(ss: seq<State>, es: seq<Event>, n: nat)
    requires IsRun(ss, es) && n < |ss| && forall j | 0 <= j < n :: SavesFirst(ss[j], es[j])
    ensures AllSaved(ss[n]) && forall j, nm | 0 <= j < n :: !Loses(ss[j], es[j], nm)
  {
    hide Inv, Next, AllSaved, Loses, SavesFirst;
    if n > 0 {
      SavingRunsLoseNothing(ss, es, n - 1);
      assert Next(ss[n - 1], ss[n - 1 + 1], es[n - 1]);
      RunKeepsInv(ss, es, n - 1);
      SavingKeepsSaved(ss[n - 1], ss[n], es[n - 1]);
    }
  }

  // ----- bio.c -----

  /** The order in which binit leaves i buffers. */
  function Falling(i: nat): (r: seq<int>)
    ensures |r| == i && forall k | 0 <= k < i :: r[k] == i - 1 - k
  {
    if i == 0 then [] else [i - 1] + Falling(i - 1)
  }

  lemma FreshCache(s: State, n: nat)
    requires s.order == Falling(n) && s.stamp == seq(n, i => i) && s.clock == n && s.latest == s.disk
    requires |s.bufs| == |s.users| == n
    requires forall b | 0 <= b < n :: s.bufs[b] == Buf(Name(0, 0), false, false, 0, -1, []) && s.users[b] == multiset{}
    ensures Inv(s)
  {
    forall b | 0 <= b < n
      ensures b in s.order
    {
      assert s.order[n - 1 - b] == b;
    }
  }

  class Cache {
    const bufs: array<Buf>
    /** Links; the last entry is the list head. */
    const next: array<int>
    const prev: array<int>
    var disk: map<Name, Block>
    ghost var latest: map<Name, Block>
    ghost var order: seq<int>
    ghost var users: seq<multiset<int>>
    ghost var stamp: seq<int>
    ghost var clock: int

    ghost function Abs(): State
      reads this, bufs
    {
      State(order, bufs[..], users, stamp, clock, disk, latest)
    }

    ghost predicate Linked()
      reads this, bufs, next, prev
    {
      next != prev && next.Length == prev.Length == bufs.Length + 1 && Ring(next[..], prev[..], order, bufs.Length)
    }

    ghost predicate Valid()
      reads this, bufs, next, prev
    {
      Linked() && Inv(Abs())
    }

    /** binit. */
    constructor (nbuf: nat, disk: map<Name, Block>)
      ensures Valid() && fresh(bufs) && fresh(next) && fresh(prev)
      ensures bufs.Length == nbuf && this.disk == latest == disk && AllSaved(Abs())
      ensures forall b | 0 <= b < nbuf :: bufs[b] == Buf(Name(0, 0), false, false, 0, -1, [])
    {
      bufs := new Buf[nbuf](_ => Buf(Name(0, 0), false, false, 0, -1, []));
      next := new int[nbuf + 1](_ => nbuf);
      prev := new int[nbuf + 1](_ => nbuf);
      this.disk, latest := disk, disk;
      order, users, stamp, clock := [], seq(nbuf, _ => multiset{}), seq(nbuf, i => i), nbuf;
      new;
      hide Inv;
      for b := 0 to nbuf
        invariant next.Length == prev.Length == nbuf + 1 && next != prev && order == Falling(b)
        invariant Ring(next[..], prev[..], order, nbuf)
        invariant users == seq(nbuf, _ => multiset{}) && stamp == seq(nbuf, i => i) && clock == nbuf
        invariant this.disk == latest == disk
        invariant forall i | 0 <= i < nbuf :: bufs[i] == Buf(Name(0, 0), false, false, 0, -1, [])
      {
        LinkFirst(b);
        order := [b] + order;
      }
      FreshCache(Abs(), nbuf);
    }

    /** Puts b after the list head. */
    method LinkFirst(b: int)
      requires next.Length == prev.Length == bufs.Length + 1 && next != prev
      requires Ring(next[..], prev[..], order, bufs.Length) && 0 <= b < bufs.Length && b !in order
      modifies next, prev
      ensures Ring(next[..], prev[..], [b] + order, bufs.Length)
    {
      hide Ring;
      ghost var nx, pv := next[..], prev[..];
      var head := bufs.Length;
      RingInRange(nx, pv, order, head, 0);
      next[b] := next[head];
      prev[b] := head;
      prev[next[head]] := b;
      next[head] := b;
      InsertKeepsRing(nx, pv, order, head, b, next[..], prev[..]);
    }

    /** Takes the k-th buffer out of the ring. */
    method Unlink(b: int, ghost k: int)
      requires next.Length == prev.Length == bufs.Length + 1 && next != prev
      requires Ring(next[..], prev[..], order, bufs.Length) && 0 <= k < |order| && order[k] == b
      modifies next, prev
      ensures Ring(next[..], prev[..], Without(order, k), bufs.Length)
    {
      hide Ring, Without;
      ghost var nx, pv := next[..], prev[..];
      RingInRange(nx, pv, order, bufs.Length, k);
      prev[next[b]] := prev[b];
      next[prev[b]] := next[b];
      UnlinkKeepsRing(nx, pv, order, bufs.Length, k, next[..], prev[..]);
    }

    /** The first loop of bget: the first buffer of the ring with that name, or the list head. */
    method Cached(nm: Name) returns (b: int, ghost k: int)
      requires Linked()
      ensures 0 <= k <= |order| && b == At(order, bufs.Length, k)
      ensures b != bufs.Length <==> k < |order|
      ensures forall i | 0 <= i < k :: 0 <= order[i] < bufs.Length && bufs[order[i]].name != nm
      ensures b != bufs.Length ==> 0 <= b < bufs.Length && bufs[b].name == nm
    {
      hide Ring;
      var head := bufs.Length;
      RingInRange(next[..], prev[..], order, head, 0);
      b := next[head];
      k := 0;
      while b != head
        invariant 0 <= k <= |order| && b == At(order, head, k)
        invariant forall i | 0 <= i < k :: 0 <= order[i] < bufs.Length && bufs[order[i]].name != nm
        decreases |order| - k
      {
        RingInRange(next[..], prev[..], order, head, k);
        if bufs[b].name == nm { return; }
        b := next[b];
        k := k + 1;
      }
      RingInRange(next[..], prev[..], order, head, k);
    }

    /** The second loop of bget: the last idle clean buffer of the ring, or the list head. */
    method LastIdle() returns (b: int, ghost k: int)
      requires Linked()
      ensures -1 <= k < |order| && b == At(order, bufs.Length, k)
      ensures b != bufs.Length <==> k >= 0
      ensures forall i | k < i < |order| :: 0 <= order[i] < bufs.Length && !Idle(bufs[order[i]])
      ensures b != bufs.Length ==> 0 <= b < bufs.Length && Idle(bufs[b])
    {
      hide Ring;
      var head := bufs.Length;
      RingInRange(next[..], prev[..], order, head, 0);
      b := prev[head];
      k := |order| - 1;
      while b != head
        invariant -1 <= k < |order| && b == At(order, head, k)
        invariant forall i | k < i < |order| :: 0 <= order[i] < bufs.Length && !Idle(bufs[order[i]])
        decreases k
      {
        RingInRange(next[..], prev[..], order, head, k);
        if bufs[b].refcnt == 0 && !bufs[b].dirty { return; }
        b := prev[b];
        k := k - 1;
      }
      if k >= 0 { RingInRange(next[..], prev[..], order, head, k); }
    }

    /** The k-th buffer becomes the first. */
    method MoveFirst(b: int, ghost k: int)
      requires next.Length == prev.Length == bufs.Length + 1 && next != prev
      requires Ring(next[..], prev[..], order, bufs.Length) && 0 <= k < |order| && order[k] == b
      modifies next, prev, this`order
      ensures order == [b] + Without(old(order), k) && Ring(next[..], prev[..], order, bufs.Length)
    {
      FrontDistinct(order, bufs.Length, k);
      Unlink(b, k);
      order := Without(order, k);
      LinkFirst(b);
      order := [b] + order;
    }

    /** bget under bcache.lock; -1 stands for the panic.  k is the buffer's place in the ring. */
    method Bget(p: int, nm: Name) returns (b: int, ghost k: int)
      requires Valid()
      modifies bufs, this`users, this`latest
      ensures Valid()
      ensures b != -1 ==>
        0 <= k < |order| && order[k] == b && (Hit(old(Abs()), Abs(), p, nm, k) || Recycle(old(Abs()), Abs(), p, nm, k))
      ensures b != -1 ==> Next(old(Abs()), Abs(), Get(p, nm, k))
      ensures b == -1 <==> forall i | 0 <= i < bufs.Length :: old(bufs[i]).name != nm && !Idle(old(bufs[i]))
      ensures b == -1 ==> Abs() == old(Abs())
      ensures b != -1 ==>
        0 <= b < bufs.Length && bufs[b].name == nm && bufs[b].refcnt == old(bufs[b]).refcnt + 1
      ensures b != -1 && old(bufs[b]).name != nm ==> old(bufs[b]).refcnt == 0 && !old(bufs[b]).dirty && !bufs[b].valid
      ensures (exists i :: 0 <= i < bufs.Length && old(bufs[i]).refcnt == 0 && !old(bufs[i]).dirty) ==> b != -1
    {
      hide Inv, Ring, AfterLoss;
      ghost var s := Abs();
      ShapeOf(s);
      b, k := Cached(nm);
      if b != bufs.Length {
        bufs[b] := bufs[b].(refcnt := bufs[b].refcnt + 1);
        users := users[b := users[b] + multiset{p}];
        HitKeeps(s, Abs(), p, nm, k);
        return;
      }
      b, k := LastIdle();
      if b != bufs.Length {
        latest := AfterLoss(s, bufs[b]);
        bufs[b] := bufs[b].(name := nm);
        bufs[b] := bufs[b].(valid := false, dirty := false);
        bufs[b] := bufs[b].(refcnt := 1);
        users := users[b := multiset{p}];
        RecycleKeeps(s, Abs(), p, nm, k);
        return;
      }
      forall i | 0 <= i < bufs.Length
        ensures s.bufs[i].name != nm && !Idle(s.bufs[i])
      {
        assert i in s.order;
      }
      b := -1;
    }

    /** acquiresleep on a buffer whose lock is free. */
    method Acquiresleep(p: int, b: int)
      requires Valid() && p != -1 && 0 <= b < bufs.Length && p in users[b] && bufs[b].holder == -1
      modifies bufs
      ensures Valid() && Next(old(Abs()), Abs(), Lock(p, b))
      ensures bufs[b] == old(bufs[b]).(holder := p) && latest == old(latest) && disk == old(disk)
    {
      hide Ring;
      ghost var s := Abs();
      bufs[b] := bufs[b].(holder := p);
      assert BufOk(s, b);
      ChangeKeeps(s, Abs(), b, bufs[b]);
    }

    /** iderw: a dirty buffer is written, an invalid one is read. */
    method Iderw(p: int, b: int)
      requires Valid() && 0 <= b < bufs.Length && bufs[b].holder == p != -1
      requires bufs[b].dirty || !bufs[b].valid
      requires bufs[b].name in disk
      modifies bufs, this`disk
      ensures Valid() && latest == old(latest) && disk == old(disk)[old(bufs[b]).name := latest[old(bufs[b]).name]]
      ensures Changed(old(Abs()), Abs(), b,
                      old(bufs[b]).(valid := true, dirty := false, data := latest[old(bufs[b]).name]))
    {
      hide Ring;
      ghost var s := Abs();
      assert BufOk(s, b);
      UniqueMeansDisk(s, b);
      if bufs[b].dirty {
        disk := disk[bufs[b].name := bufs[b].data];
        bufs[b] := bufs[b].(dirty := false, valid := true);
      } else {
        bufs[b] := bufs[b].(data := disk[bufs[b].name], valid := true);
      }
      ChangeKeeps(s, Abs(), b, bufs[b]);
    }

    /** What bread does once it has the lock. */
    method Fill(p: int, b: int)
      requires Valid() && 0 <= b < bufs.Length && bufs[b].holder == p != -1 && bufs[b].name in disk
      modifies bufs, this`disk
      ensures Valid() && Next(old(Abs()), Abs(), Load(p, b)) && latest == old(latest) && disk == old(disk)
      ensures bufs[b] == old(bufs[b]).(valid := true, data := latest[old(bufs[b]).name])
    {
      hide Ring;
      ghost var s := Abs();
      assert BufOk(s, b);
      UniqueMeansDisk(s, b);
      if !bufs[b].valid { Iderw(p, b); }
      assert disk == old(disk);
    }

    /** bread: bget, and the rest at once if the sleep lock is free; otherwise the process waits for
        the lock of buffer b and goes on with Wake.  -1 stands for the panic. */
    method Bread(p: int, nm: Name) returns (b: int, got: bool, ghost k: int)
      requires Valid() && p != -1 && nm in disk
      modifies bufs, this`users, this`disk, this`latest
      ensures Valid() && disk == old(disk)
      ensures b == -1 <==> forall i | 0 <= i < bufs.Length :: old(bufs[i]).name != nm && !Idle(old(bufs[i]))
      ensures b != -1 ==>
        0 <= k < |order| && order[k] == b && 0 <= b < bufs.Length && latest == AfterGet(old(Abs()), nm, k)
      ensures b != -1 ==> bufs[b].name == nm && p in users[b]
      ensures b != -1 && got ==> bufs[b].valid && bufs[b].holder == p && bufs[b].data == latest[nm]
      ensures b != -1 && !got ==> bufs[b].holder != -1 && (bufs[b].holder == p ==> users[b][p] > 1)
    {
      hide Ring, Inv, Recycle, Hit;
      ghost var s := Abs();
      b, k := Bget(p, nm);
      if b == -1 { return b, false, k; }
      GotBuffer(s, Abs(), p, nm, k);
      if bufs[b].holder != -1 { return b, false, k; }
      Wake(p, b);
      return b, true, k;
    }

    /** The end of bread once the sleep lock is free. */
    method Wake(p: int, b: int)
      requires Valid() && p != -1 && 0 <= b < bufs.Length && p in users[b] && bufs[b].holder == -1
      requires bufs[b].name in disk
      modifies bufs, this`disk
      ensures Valid() && latest == old(latest) && disk == old(disk)
      ensures bufs[b] == old(bufs[b]).(valid := true, holder := p, data := latest[old(bufs[b]).name])
    {
      hide Ring, Inv, Next;
      Acquiresleep(p, b);
      Fill(p, b);
    }

    /** The holder changes the bytes of its buffer; from now on these are the block's contents. */
    method Modify(p: int, b: int, d: Block)
      requires Valid() && 0 <= b < bufs.Length && bufs[b].holder == p != -1 && bufs[b].valid
      modifies bufs, this`latest
      ensures Valid() && Next(old(Abs()), Abs(), Write(p, b, d))
    {
      hide Ring;
      ghost var s := Abs();
      assert BufOk(s, b);
      bufs[b] := bufs[b].(data := d);
      latest := latest[bufs[b].name := d];
      ChangeKeeps(s, Abs(), b, bufs[b]);
    }

    /** What log_write does to the buffer: it may not be recycled until it is written. */
    method Pin(p: int, b: int)
      requires Valid() && 0 <= b < bufs.Length && bufs[b].holder == p != -1 && bufs[b].valid
      modifies bufs
      ensures Valid() && Next(old(Abs()), Abs(), Mark(p, b))
    {
      hide Ring;
      ghost var s := Abs();
      assert BufOk(s, b);
      bufs[b] := bufs[b].(dirty := true);
      ChangeKeeps(s, Abs(), b, bufs[b]);
    }

    /** bwrite: afterwards the disk has the latest contents of the block. */
    method Bwrite(p: int, b: int)
      requires Valid() && 0 <= b < bufs.Length && bufs[b].holder == p != -1 && bufs[b].valid
      modifies bufs, this`disk
      ensures Valid() && Next(old(Abs()), Abs(), Flush(p, b))
      ensures bufs[b].name in disk && disk[bufs[b].name] == latest[bufs[b].name]
    {
      hide Ring, Inv;
      ghost var s := Abs();
      ShapeOf(s);
      BufHasLatest(s, b);
      Pin(p, b);
      Iderw(p, b);
    }

    /** The first half of brelse: the sleep lock. */
    method Releasesleep(p: int, b: int)
      requires Valid() && 0 <= b < bufs.Length && bufs[b].holder == p != -1
      modifies bufs
      ensures Valid() && Next(old(Abs()), Abs(), Unlock(p, b))
      ensures bufs[b] == old(bufs[b]).(holder := -1)
      ensures forall i | 0 <= i < bufs.Length && i != b :: bufs[i] == old(bufs[i])
    {
      hide Ring;
      ghost var s := Abs();
      assert BufOk(s, b);
      bufs[b] := bufs[b].(holder := -1);
      ChangeKeeps(s, Abs(), b, bufs[b]);
    }

    /** The second half of brelse, under bcache.lock. */
    method Drop(p: int, b: int, ghost k: int)
      requires Valid() && 0 <= k < |order| && order[k] == b && p in users[b]
      requires bufs[b].holder == p ==> users[b][p] > 1
      modifies bufs, next, prev, this`users, this`order, this`stamp, this`clock
      ensures Valid() && Dropped(old(Abs()), Abs(), p, k) && Next(old(Abs()), Abs(), Event.Drop(p, b))
    {
      hide Inv, Ring, Shape, Distinct, Without;
      ghost var s := Abs();
      ShapeOf(s);
      InRange(s, k);
      bufs[b] := bufs[b].(refcnt := bufs[b].refcnt - 1);
      users := users[b := users[b] - multiset{p}];
      if bufs[b].refcnt == 0 {
        MoveFirst(b, k);
        stamp := stamp[b := clock];
        clock := clock + 1;
      }
      DropKeeps(s, Abs(), p, k);
      DropIsNext(s, Abs(), p, b, k);
    }

    method Brelse(p: int, b: int)
      requires Valid() && 0 <= b < bufs.Length && bufs[b].holder == p != -1
      modifies bufs, next, prev, this`users, this`order, this`stamp, this`clock
      ensures Valid() && bufs[b] == old(bufs[b]).(holder := -1, refcnt := old(bufs[b]).refcnt - 1)
      ensures forall i | 0 <= i < bufs.Length && i != b :: bufs[i] == old(bufs[i])
      ensures bufs[b].refcnt == 0 ==> |order| > 0 && order[0] == b && next[bufs.Length] == b
      ensures bufs[b].refcnt != 0 ==> order == old(order)
    {
      hide Inv, Ring, Shape, Distinct, Next, Dropped;
      HolderUses(Abs(), b);
      ghost var users0 := users;
      Releasesleep(p, b);
      ghost var m := Abs();
      ShapeOf(m);
      ghost var k := Position(m, b);
      Drop(p, b, k);
      DroppedFirst(m, Abs(), p, b, k);
      RingInRange(next[..], prev[..], order, bufs.Length, 0);
    }
  }

  lemma ShapeOf(s: State)
    requires Inv(s)
    ensures Shape(s)
  {
  }

  lemma DropIsNext(s: State, t: State, p: int, b: int, k: int)
    requires Shape(s) && Dropped(s, t, p, k) && s.order[k] == b && p in s.users[b]
    requires s.bufs[b].holder == p ==> s.users[b][p] > 1
    ensures Next(s, t, Event.Drop(p, b))
  {
    hide Without;
  }

  lemma DroppedFirst(s: State, t: State, p: int, b: int, k: int)
    requires Shape(s) && Dropped(s, t, p, k) && b == s.order[k]
    ensures |t.bufs| == |s.bufs| && 0 <= b < |s.bufs| && t.bufs[b] == s.bufs[b].(refcnt := s.bufs[b].refcnt - 1)
    ensures forall i | 0 <= i < |s.bufs| && i != b :: t.bufs[i] == s.bufs[i]
    ensures t.bufs[b].refcnt == 0 ==> |t.order| > 0 && t.order[0] == b
    ensures t.bufs[b].refcnt != 0 ==> t.order == s.order
  {
  }

  lemma InRange(s: State, k: int)
    requires Shape(s) && 0 <= k < |s.order|
    ensures 0 <= s.order[k] < |s.bufs| && |s.bufs| == |s.users| == |s.stamp|
  {
  }

  lemma HolderUses(s: State, b: int)
    requires Inv(s) && 0 <= b < |s.bufs|
    ensures s.bufs[b].holder != -1 ==> s.bufs[b].holder in s.users[b]
    ensures |s.users| == |s.bufs|
  {
    assert BufOk(s, b);
  }

  lemma BufHasLatest(s: State, b: int)
    requires Inv(s) && 0 <= b < |s.bufs|
    ensures s.bufs[b].valid ==>
      s.bufs[b].name in s.disk && s.bufs[b].name in s.latest && s.bufs[b].data == s.latest[s.bufs[b].name]
  {
    assert BufOk(s, b);
  }

  /** When the buffer in use for a block is not valid, the disk has the latest contents. */
  lemma UniqueMeansDisk(s: State, b: int)
    requires Inv(s) && 0 <= b < |s.bufs| && s.bufs[b].refcnt != 0 && s.bufs[b].name in s.disk
    ensures !s.bufs[b].valid ==> s.disk[s.bufs[b].name] == s.latest[s.bufs[b].name]
  {
    assert NameOk(s, s.bufs[b].name);
    if !s.bufs[b].valid && s.disk[s.bufs[b].name] != s.latest[s.bufs[b].name] {
      var c :| Holds(s, c, s.bufs[b].name);
      BusyUnique(s, b, c);
    }
  }

  /** What the cache shows after a bget of nm that took the k-th buffer. */
  ghost function AfterGet(s: State, nm: Name, k: int): map<Name, Block> {
    if 0 <= k < |s.order| && 0 <= s.order[k] < |s.bufs| && s.bufs[s.order[k]].name != nm
    then AfterLoss(s, s.bufs[s.order[k]]) else s.latest
  }

  lemma GotBuffer(s: State, t: State, p: int, nm: Name, k: int)
    requires Inv(s) && Inv(t) && p != -1 && (Hit(s, t, p, nm, k) || Recycle(s, t, p, nm, k))
    ensures t.order == s.order && 0 <= k < |t.order|
    ensures var b := t.order[k];
      && 0 <= b < |t.bufs| == |t.users| && t.bufs[b].name == nm && p in t.users[b] && t.latest == AfterGet(s, nm, k)
      && (t.bufs[b].holder == p ==> t.users[b][p] > 1)
  {
    hide FirstBusy, NameOk, Later;
    assert BufOk(s, s.order[k]);
    if Recycle(s, t, p, nm, k) { RecycleKeeps(s, t, p, nm, k); }
  }
}
