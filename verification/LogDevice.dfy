/** struct log and the functions of log.c that update it in place, proved against the state
    machine of LogMachine: every loop iteration is one machine step. */
module LogDevice {
  import opened LogMachine
  import opened Params
  import LogSafety
  import opened LogBuffers

  /** `m'` is `k` steps of the committing process after `m`. */
  ghost predicate IoPath(g: Geometry, m: Machine, m': Machine, k: nat)
    decreases k
  {
    if k == 0 then m' == m
    else exists q :: IoPath(g, m, q, k - 1) && IoStep(g, q, m')
  }

  ghost predicate IoStep(g: Geometry, q: Machine, m': Machine) {
    ValidGeometry(g) && |q.disk| == g.nblocks && SafeLh(g, q) && CommitStep(g, q) == Next(m')
  }

  lemma IoPathStart(g: Geometry, m: Machine)
    ensures IoPath(g, m, m, 0)
  {
  }

  lemma IoPathOne(g: Geometry, m: Machine, m': Machine)
    requires IoStep(g, m, m')
    ensures IoPath(g, m, m', 1)
  {
    assert IoPath(g, m, m, 0);
  }

  lemma IoPathSnoc(g: Geometry, m: Machine, q: Machine, m': Machine, k: nat)
    requires IoPath(g, m, q, k) && IoStep(g, q, m')
    ensures IoPath(g, m, m', k + 1)
  {
  }

  lemma {:induction false} IoPathConcat(g: Geometry, m: Machine, q: Machine, m': Machine, j: nat, k: nat)
    requires IoPath(g, m, q, j) && IoPath(g, q, m', k)
    ensures IoPath(g, m, m', j + k)
    decreases k
  {
    hide IoStep;
    if k > 0 {
      var r :| IoPath(g, q, r, k - 1) && IoStep(g, r, m');
      IoPathConcat(g, m, q, r, j, k - 1);
    }
  }

  /** brelse */
  function Returned(m: Machine, b: int): Machine { m.(held := m.held - multiset{b}) }

  /** Using a buffer changes nothing that bread and bwrite do. */
  lemma UseCommutes(m: Machine, x: int, b: int, data: Block)
    requires 0 <= b < |m.disk|
    ensures Bread(Use(m, x), b) == Use(Bread(m, b), x) && View(Use(m, x), b) == View(m, b)
    ensures Bwrite(Use(m, x), b, data) == Use(Bwrite(m, b, data), x)
  {
  }

  lemma UseFits(m: Machine, x: int)
    ensures |Use(m, x).disk| == |m.disk|
  {
  }

  lemma ReturnAll(m: Machine, a: int, b: int)
    ensures Returned(Use(m, a), a) == m
    ensures Returned(Returned(Use(Use(m, a), b), b), a) == m
    ensures Returned(Returned(Use(Use(m, a), b), a), b) == m
  {
    GiveBack(m.held, a, b);
    GiveBack(m.held, b, a);
  }

  lemma GiveBack(h: multiset<int>, a: int, b: int)
    ensures h + multiset{a} - multiset{a} == h
    ensures h + multiset{a} + multiset{b} - multiset{b} == h + multiset{a}
    ensures h + multiset{a} + multiset{b} - multiset{a} == h + multiset{b}
  {
  }

  /** write_log reads its destination first; the write hides that. */
  lemma LogOneSame(g: Geometry, m: Machine, t: nat)
    requires ValidGeometry(g) && |m.disk| == g.nblocks && SafeLh(g, m) && t < |m.lh|
    requires m.lh[t] != g.start + t + 1
    ensures var m1 := Bread(m, g.start + t + 1);
      View(m1, m.lh[t]) == View(m, m.lh[t])
      && Bwrite(Bread(m1, m.lh[t]), g.start + t + 1, View(m, m.lh[t])) == LogOne(g, m, t)
  {
  }

  lemma InstallOneSame(g: Geometry, m: Machine, t: nat)
    requires ValidGeometry(g) && |m.disk| == g.nblocks && SafeLh(g, m) && t < |m.lh|
    requires m.lh[t] != g.start + t + 1
    ensures var m1 := Bread(m, g.start + t + 1);
      Bwrite(Bread(m1, m.lh[t]), m.lh[t], View(m, g.start + t + 1)) == InstallOne(g, m, t)
  {
  }

  lemma LogOneIs(g: Geometry, m: Machine, t: nat)
    requires ValidGeometry(g) && |m.disk| == g.nblocks && SafeLh(g, m) && t < |m.lh|
    requires m.lh[t] != g.start + t + 1
    ensures var a, b := g.start + t + 1, m.lh[t];
      var m1 := Use(Bread(m, a), a);
      && View(m1, b) == View(m, b)
      && Returned(Returned(Bwrite(Use(Bread(m1, b), b), a, View(m, b)), b), a) == LogOne(g, m, t)
  {
    hide Bread, Bwrite, View, Use, Returned, LogOne;
    LogOneSame(g, m, t);
    var a, b := g.start + t + 1, m.lh[t];
    var data := View(m, b);
    var m0 := Bread(m, a);
    var m2 := Bread(m0, b);
    UseCommutes(m0, a, b, data);
    UseFits(m2, a);
    UseCommutes(Use(m2, a), b, a, data);
    UseCommutes(m2, a, a, data);
    ReturnAll(Bwrite(m2, a, data), a, b);
  }

  lemma InstallOneIs(g: Geometry, m: Machine, t: nat)
    requires ValidGeometry(g) && |m.disk| == g.nblocks && SafeLh(g, m) && t < |m.lh|
    requires m.lh[t] != g.start + t + 1
    ensures var a, b := g.start + t + 1, m.lh[t];
      var m1 := Use(Bread(m, a), a);
      Returned(Returned(Bwrite(Use(Bread(m1, b), b), b, View(m, a)), a), b) == InstallOne(g, m, t)
  {
    hide Bread, Bwrite, View, Use, Returned, InstallOne;
    InstallOneSame(g, m, t);
    var a, b := g.start + t + 1, m.lh[t];
    var data := View(m, a);
    var m0 := Bread(m, a);
    var m2 := Bread(m0, b);
    UseCommutes(m0, a, b, data);
    UseFits(m2, a);
    UseCommutes(Use(m2, a), b, b, data);
    UseCommutes(m2, a, b, data);
    ReturnAll(Bwrite(m2, b, data), a, b);
  }

  lemma CoreBasics(g: Geometry, m: Machine, c: Disk, l: Disk)
    requires Core(g, m, c, l)
    ensures ValidGeometry(g) && |m.disk| == |c| == |l| == g.nblocks && SafeLh(g, m)
    ensures forall i | 0 <= i < |m.lh| :: Home(g, m.lh[i])
  {
  }

  lemma HeaderFits(g: Geometry, m: Machine, c: Disk, l: Disk)
    requires Core(g, m, c, l) && m.pc.ReadHead?
    ensures ValidGeometry(g) && |m.disk| == g.nblocks && SafeLh(g, m)
    ensures View(m, g.start) == m.disk[g.start] && HeaderOk(m.disk[g.start])
  {
  }

  /** Recovery from `d` gives the home blocks of `c`. */
  ghost predicate Leaves(g: Geometry, d: Disk, c: Disk) {
    && ValidGeometry(g) && |d| == |c| == g.nblocks
    && HomeEq(g, LogSafety.Recovered(g, d), c)
  }

  function AfterHead(pc: Pc): Pc {
    match pc
    case CommitHead => Installing(0, false)
    case ClearHead(boot) => if boot then Idle else Closing
    case _ => pc
  }

  lemma WriteHeadIs(g: Geometry, m: Machine)
    requires ValidGeometry(g) && |m.disk| == g.nblocks && SafeLh(g, m)
    ensures var w := PutHeader(View(m, g.start), m.lh);
      Returned(Bwrite(Use(Bread(m, g.start), g.start), g.start, w), g.start) == WriteHead(g, m)
    ensures (m.pc.CommitHead? || m.pc.ClearHead?) && CanGet(m, g.start) ==>
      CommitStep(g, m) == Next(WriteHead(g, m).(pc := AfterHead(m.pc)))
  {
    hide Use, Returned, CanGet;
    var m0 := Bread(m, g.start);
    UseCommutes(m0, g.start, g.start, PutHeader(View(m, g.start), m.lh));
    ReturnAll(Bwrite(m0, g.start, PutHeader(View(m, g.start), m.lh)), g.start, g.start);
  }

  lemma HeadWritten(g: Geometry, m: Machine, c: Disk, l: Disk)
    requires Core(g, m, c, l) && (m.pc.CommitHead? || m.pc.ClearHead?)
    ensures ValidGeometry(g) && |m.disk| == g.nblocks && SafeLh(g, m)
    ensures Core(g, WriteHead(g, m).(pc := AfterHead(m.pc)), if m.pc.CommitHead? then l else c, l)
    ensures CanGet(m, g.start) ==> IoStep(g, m, WriteHead(g, m).(pc := AfterHead(m.pc)))
  {
    hide WriteHead, CanGet, Core;
    CoreBasics(g, m, c, l);
    if m.pc.CommitHead? { CommitHeadKeeps(g, m, c, l); } else { ClearHeadKeeps(g, m, c, l); }
  }

  class Log {
    const g: Geometry
    const block: array<int>
    var disk: Disk
    var cache: map<int, Buf>
    /** How often each block's buffer is in use, by this process and by others. */
    var held: multiset<int>
    var n: nat
    var outstanding: int
    var committing: bool
    /** The processes asleep on the log. */
    var waiters: set<int>
    ghost var pc: Pc
    /** The committed disk and the disk with the pending writes on top. */
    ghost var c: Disk
    ghost var l: Disk
    /** The disk after each sector write: where a power failure can leave it. */
    ghost var history: seq<Disk>

    ghost predicate Fits() reads this, block {
      && block.Length == LOGSIZE && n <= LOGSIZE
      && (forall i | 0 <= i < |disk| :: |disk[i].words| == WORDS)
      && (forall b | b in cache :: |cache[b].data.words| == WORDS)
    }

    ghost function Abs(): Machine reads this, block requires Fits() {
      Machine(disk, cache, held, block[..n], outstanding, committing, waiters, pc)
    }

    ghost predicate Valid() reads this, block {
      Fits() && Core(g, Abs(), c, l)
    }

    /** Every disk left behind since point `from` recovers to `c0` or to `c1`. */
    ghost predicate CrashSafe(from: nat, c0: Disk, c1: Disk) reads this {
      && from <= |history|
      && forall i | from <= i < |history| :: Leaves(g, history[i], c0) || Leaves(g, history[i], c1)
    }

    /** Power up on a disk from which `committed` can be recovered, as initlog finds it. */
    constructor (g: Geometry, d: Disk, ghost committed: Disk)
      requires ValidGeometry(g) && |d| == |committed| == g.nblocks && Recoverable(g, d, committed)
      requires forall i | 0 <= i < |d| :: |d[i].words| == WORDS
      ensures Valid() && pc == ReadHead && c == l == committed && disk == d && this.g == g
      ensures held == multiset{} && waiters == {}
      ensures fresh(block)
    {
      this.g := g;
      block := new int[LOGSIZE](_ => 0);
      disk, cache, held, n, outstanding, committing, waiters := d, map[], multiset{}, 0, 0, false, {};
      pc, c, l, history := ReadHead, committed, committed, [];
      new;
      assert block[..n] == [];
    }

    /** false is the panic of bget: the block has no buffer in use, and all buffers are. */
    method Bread(b: int) returns (ok: bool, data: Block)
      requires Fits() && 0 <= b < |disk|
      modifies this`cache, this`held
      ensures Fits() && (ok <==> CanGet(old(Abs()), b))
      ensures ok ==> Abs() == Use(LogMachine.Bread(old(Abs()), b), b)
      ensures ok ==> data == View(old(Abs()), b) && |data.words| == WORDS && held == old(held) + multiset{b}
      ensures !ok ==> Abs() == old(Abs())
    {
      var used := (set x | x in cache && cache[x].dirty) + (set x | x in held);
      if b !in used && |used| >= NBUF { return false, disk[b]; }
      if b !in cache { cache := cache[b := Buf(disk[b], false)]; }
      held := held + multiset{b};
      return true, cache[b].data;
    }

    method Brelse(b: int)
      requires Fits() && b in held
      modifies this`held
      ensures Fits() && Abs() == Returned(old(Abs()), b) && held == old(held) - multiset{b}
    {
      held := held - multiset{b};
    }

    /** bread(a), then bread(b) with a's buffer in use. */
    method BreadBoth(a: int, b: int) returns (ok: bool, x: Block, y: Block)
      requires Fits() && 0 <= a < |disk| && 0 <= b < |disk|
      modifies this`cache, this`held
      ensures Fits() && (ok <==> CanGet(old(Abs()), a) && CanGet(Use(LogMachine.Bread(old(Abs()), a), a), b))
      ensures !CanGet(old(Abs()), a) ==> Abs() == old(Abs())
      ensures ok ==> var m := Use(LogMachine.Bread(old(Abs()), a), a);
        && Abs() == Use(LogMachine.Bread(m, b), b)
        && x == View(old(Abs()), a) && y == View(m, b)
      ensures ok ==> |x.words| == |y.words| == WORDS && multiset{a, b} <= held
      ensures !ok ==> Abs() == old(Abs()) || Abs() == Use(LogMachine.Bread(old(Abs()), a), a)
    {
      hide LogMachine.Bread, View, CanGet, InUse;
      y := disk[b];
      ok, x := Bread(a);
      if !ok { return; }
      ok, y := Bread(b);
    }

    /** brelse(a), then brelse(b). */
    method BrelseBoth(a: int, b: int)
      requires Fits() && multiset{a, b} <= held
      modifies this`held
      ensures Fits() && Abs() == Returned(Returned(old(Abs()), a), b)
    {
      assert held[a] >= multiset{a, b}[a] && held[b] >= multiset{a, b}[b];
      Brelse(a);
      Brelse(b);
    }

    method Bwrite(b: int, data: Block)
      requires Fits() && 0 <= b < |disk| && |data.words| == WORDS
      modifies this`cache, this`disk, this`history
      ensures Fits() && Abs() == LogMachine.Bwrite(old(Abs()), b, data)
      ensures history == old(history) + [disk] && disk == old(disk)[b := data]
    {
      disk := disk[b := data];
      cache := cache[b := Buf(data, false)];
      history := history + [disk];
    }

    /** The body of read_head; false is the panic of bread. */
    method CopyHeader() returns (ok: bool)
      requires Fits() && g.start < |disk| && HeaderOk(View(Abs(), g.start))
      modifies this`cache, this`held, this`n, block
      ensures Fits() && (ok <==> CanGet(old(Abs()), g.start))
      ensures ok ==> Abs() == LogMachine.Bread(old(Abs()), g.start).(lh := GetHeader(View(old(Abs()), g.start)))
      ensures !ok ==> Abs() == old(Abs())
    {
      hide CanGet, LogMachine.Bread, InUse, View;
      ghost var m := Abs();
      ReturnAll(LogMachine.Bread(m, g.start), g.start, g.start);
      var hb;
      ok, hb := Bread(g.start);
      if !ok { return; }
      n := hb.words[0];
      var i := 0;
      while i < n
        invariant Fits() && i <= n <= LOGSIZE && n == hb.words[0] && |hb.words| == WORDS
        invariant cache == LogMachine.Bread(m, g.start).cache && held == m.held + multiset{g.start}
        invariant block[..i] == Entries(hb.words, i)
      {
        block[i] := hb.words[1 + i];
        assert block[..i + 1] == block[..i] + [block[i]];
        i := i + 1;
      }
      held := held - multiset{g.start};
    }

    /** read_head as one step of the machine: the in-memory list is the one on the disk. */
    method ReadHeader() returns (ok: bool)
      requires Valid() && pc.ReadHead?
      modifies this`cache, this`held, this`n, this`pc, block
      ensures Valid() && (ok <==> CanGet(old(Abs()), g.start))
      ensures ok ==> pc == Installing(0, true) && IoStep(g, old(Abs()), Abs())
      ensures !ok ==> Abs() == old(Abs())
    {
      hide Core, CanGet, LogMachine.Bread, GetHeader, HeaderOk, View, IoStep;
      ghost var m := Abs();
      HeaderFits(g, m, c, l);
      ok := CopyHeader();
      if !ok { return; }
      pc := Installing(0, true);
      HeaderRead(m);
    }

    lemma HeaderRead(m: Machine)
      requires Core(g, m, c, l) && m.pc.ReadHead? && CanGet(m, g.start)
      ensures ValidGeometry(g) && |m.disk| == g.nblocks
      ensures var m' := LogMachine.Bread(m, g.start).(lh := GetHeader(View(m, g.start)), pc := Installing(0, true));
        Core(g, m', c, l) && IoStep(g, m, m')
    {
      hide Core, CanGet, LogMachine.Bread, GetHeader, View;
      CoreBasics(g, m, c, l);
      ReadHeadKeeps(g, m, c, l);
    }

    /** The copying loop of write_head. */
    method FillHeader(hb: Block) returns (w: Block)
      requires Fits() && |hb.words| == WORDS
      ensures w == PutHeader(hb, block[..n]) && |w.words| == WORDS
    {
      var words := hb.words[0 := n];
      var i := 0;
      while i < n
        invariant i <= n <= LOGSIZE && |words| == WORDS && words[0] == n
        invariant forall j | 0 <= j < i :: words[1 + j] == block[j]
        invariant forall j | 1 + i <= j < WORDS :: words[j] == hb.words[j]
      {
        words := words[1 + i := block[i]];
        i := i + 1;
      }
      assert words == [n] + block[..n] + hb.words[1 + n..];
      w := Block(words);
    }

    /** The body of write_head: the header buffer filled in place and written. */
    method WriteHeader() returns (ok: bool)
      requires Valid()
      modifies this`cache, this`held, this`disk, this`history
      ensures Fits() && (ok <==> CanGet(old(Abs()), g.start))
      ensures ok ==> ValidGeometry(g) && |old(disk)| == g.nblocks && SafeLh(g, old(Abs()))
      ensures ok ==> Abs() == LogMachine.WriteHead(g, old(Abs())) && history == old(history) + [disk]
      ensures !ok ==> Abs() == old(Abs()) && history == old(history)
    {
      hide Core, PutHeader, GetHeader, CanGet, Use, Returned, LogMachine.Bread, LogMachine.Bwrite, View, InUse;
      ghost var m := Abs();
      CoreBasics(g, m, c, l);
      var hb;
      ok, hb := Bread(g.start);
      if !ok { return; }
      var w := FillHeader(hb);
      Bwrite(g.start, w);
      Brelse(g.start);
      WriteHeadIs(g, m);
    }

    /** write_head: one sector write, the commit point or the erasure of the log. */
    method WriteHead() returns (ok: bool)
      requires Valid() && (pc.CommitHead? || pc.ClearHead?)
      modifies this`cache, this`held, this`disk, this`history, this`pc, this`c
      ensures Valid() && (ok <==> CanGet(old(Abs()), g.start))
      ensures ok ==> IoStep(g, old(Abs()), Abs())
      ensures ok ==> pc == AfterHead(old(pc)) && c == (if old(pc).CommitHead? then l else old(c))
      ensures ok ==> history == old(history) + [disk]
      ensures !ok ==> Abs() == old(Abs()) && history == old(history) && c == old(c)
    {
      hide Core, CanGet, LogMachine.WriteHead, IoStep, SafeLh;
      ghost var m := Abs();
      ok := WriteHeader();
      if !ok { return; }
      HeadWritten(g, m, c, l);
      if pc.CommitHead? { c := l; }
      pc := AfterHead(pc);
    }

    /** The body of write_log's loop; the second bread finds the dirty buffer. */
    method CopyToLog(tail: nat) returns (ok: bool)
      requires Fits() && ValidGeometry(g) && |disk| == g.nblocks && SafeLh(g, Abs()) && tail < n
      requires block[tail] != g.start + tail + 1
      requires CanGet(Use(LogMachine.Bread(Abs(), g.start + tail + 1), g.start + tail + 1), block[tail])
      modifies this`cache, this`held, this`disk, this`history
      ensures Fits() && (ok <==> CanGet(old(Abs()), g.start + tail + 1))
      ensures ok ==> Abs() == LogOne(g, old(Abs()), tail) && history == old(history) + [disk]
      ensures !ok ==> Abs() == old(Abs()) && history == old(history)
    {
      hide LogMachine.LogOne, LogMachine.Bread, LogMachine.Bwrite, View, CanGet, InUse, Use, Returned;
      LogOneIs(g, Abs(), tail);
      var to, from;
      ok, to, from := BreadBoth(g.start + tail + 1, block[tail]);
      if !ok { return; }
      Bwrite(g.start + tail + 1, from);
      BrelseBoth(block[tail], g.start + tail + 1);
    }

    /** The same as one step of the machine. */
    method LogBlock(tail: nat) returns (ok: bool)
      requires Valid() && pc == Logging(tail) && tail < n
      modifies this`cache, this`held, this`disk, this`history, this`pc
      ensures Valid() && (ok <==> CanGet(old(Abs()), g.start + tail + 1))
      ensures ok ==> pc == Logging(tail + 1) && IoStep(g, old(Abs()), Abs())
      ensures ok ==> history == old(history) + [disk] && Leaves(g, disk, c)
      ensures !ok ==> Abs() == old(Abs()) && history == old(history)
    {
      hide Core, LogMachine.LogOne, LogMachine.Bread, Leaves, CanGet, InUse, CommitNext, Gets;
      ghost var m := Abs();
      CoreBasics(g, m, c, l);
      assert Home(g, m.lh[tail]);
      LoggedIsPinned(m, tail);
      ok := CopyToLog(tail);
      if !ok { return; }
      pc := Logging(tail + 1);
      IoIsOneStep(m);
    }

    /** The block that write_log copies next has a dirty buffer. */
    lemma LoggedIsPinned(m: Machine, tail: nat)
      requires Core(g, m, c, l) && m.pc == Logging(tail) && tail < |m.lh|
      requires ValidGeometry(g) && |m.disk| == g.nblocks && SafeLh(g, m)
      ensures var a, b := g.start + tail + 1, m.lh[tail];
        && CanGet(Use(LogMachine.Bread(m, a), a), b)
        && (CanGet(m, a) ==> CommitStep(g, m) == Next(LogOne(g, m, tail).(pc := Logging(tail + 1))))
    {
      hide GetHeader, HeaderOk, CanGet;
      DirtyStays(LogMachine.Bread(m, g.start + tail + 1), g.start + tail + 1, m.lh[tail]);
      DirtyStays(m, g.start + tail + 1, m.lh[tail]);
    }

    /** write_log; false is the panic of bread for a log block. */
    method WriteLog() returns (ok: bool)
      requires Valid() && pc == Logging(0)
      modifies this`cache, this`held, this`disk, this`history, this`pc
      ensures Valid() && old(history) <= history && CrashSafe(|old(history)|, c, c)
      ensures ok <==> forall b | g.start < b <= g.start + n :: CanGet(old(Abs()), b)
      ensures ok ==> pc == CommitHead && IoPath(g, old(Abs()), Abs(), n + 1)
      ensures ok ==> held == old(held) && InUse(Abs()) == InUse(old(Abs()))
    {
      hide Core, IoStep, Leaves, InUse, IoPath;
      ghost var m0 := Abs();
      IoPathStart(g, m0);
      var tail := 0;
      while tail < n
        invariant Valid() && tail <= n && pc == Logging(tail) && IoPath(g, m0, Abs(), tail)
        invariant held == m0.held && InUse(Abs()) == InUse(m0)
        invariant forall b | g.start < b <= g.start + tail :: CanGet(m0, b)
        invariant old(history) <= history && CrashSafe(|old(history)|, c, c)
      {
        ghost var m := Abs();
        LoggingIs(m);
        ok := LogBlock(tail);
        if !ok {
          assert !CanGet(m0, g.start + tail + 1);
          return false;
        }
        StepIsNext(m, Abs());
        IoPathSnoc(g, m0, m, Abs(), tail);
        tail := tail + 1;
      }
      ghost var m := Abs();
      pc := CommitHead;
      LogAllDone(m);
      IoPathSnoc(g, m0, m, Abs(), tail);
      SameUse(m, Abs());
      return true;
    }

    lemma StepIsNext(m: Machine, m': Machine)
      requires IoStep(g, m, m')
      ensures ValidGeometry(g) && |m.disk| == g.nblocks && SafeLh(g, m) && m' == CommitNext(g, m) && Gets(g, m)
      ensures m'.held == m.held
    {
    }

    lemma LoggingIs(m: Machine)
      requires Core(g, m, c, l) && m.pc.Logging?
      ensures ValidGeometry(g) && |m.disk| == g.nblocks && SafeLh(g, m) && InUse(CommitNext(g, m)) == InUse(m)
    {
      hide Core;
      LoggingUse(g, m, c, l);
    }

    lemma LogAllDone(m: Machine)
      requires Core(g, m, c, l) && Fits() && m.pc == Logging(|m.lh|) && Abs() == m.(pc := CommitHead)
      ensures Valid() && IoStep(g, m, Abs())
    {
    }

    /** Bookkeeping for one completed step: the invariant and the disk left behind. */
    lemma IoIsOneStep(m: Machine)
      requires Core(g, m, c, l) && Fits() && IoStep(g, m, Abs()) && !m.pc.CommitHead?
      ensures Valid() && Leaves(g, disk, c)
    {
      hide Core, CommitNext, Gets, CanGet, GetHeader, Leaves;
      LogSafety.StepKeepsCore(g, m, Io, c, l);
      DiskRecovers();
    }

    /** The body of install_trans's loop; during recovery the second bread can panic too. */
    method CopyHome(tail: nat) returns (ok: bool)
      requires Fits() && ValidGeometry(g) && |disk| == g.nblocks && SafeLh(g, Abs()) && tail < n
      requires block[tail] != g.start + tail + 1
      modifies this`cache, this`held, this`disk, this`history
      ensures Fits() && (ok <==> CanGetBoth(old(Abs()), g.start + tail + 1, block[tail]))
      ensures ok ==> Abs() == InstallOne(g, old(Abs()), tail) && history == old(history) + [disk]
      ensures !ok ==> history == old(history) && (Abs() == old(Abs()) || Abs() == FirstRead(old(Abs()), tail))
    {
      hide LogMachine.InstallOne, LogMachine.Bread, LogMachine.Bwrite, View, CanGet, InUse, Use, Returned;
      InstallOneIs(g, Abs(), tail);
      GetsAfterBread(Abs(), g.start + tail + 1, block[tail]);
      var lbuf, dbuf;
      ok, lbuf, dbuf := BreadBoth(g.start + tail + 1, block[tail]);
      if !ok { return; }
      Bwrite(block[tail], lbuf);
      BrelseBoth(g.start + tail + 1, block[tail]);
    }

    /** What a panic of the second bread leaves. */
    ghost function FirstRead(m: Machine, tail: nat): Machine
      requires g.start + tail + 1 < |m.disk|
    {
      Use(LogMachine.Bread(m, g.start + tail + 1), g.start + tail + 1)
    }

    /** The same as one step of the machine. */
    method InstallBlock(tail: nat) returns (ok: bool)
      requires Valid() && pc.Installing? && pc.tail == tail && tail < n
      modifies this`cache, this`held, this`disk, this`history, this`pc
      ensures Valid() && (ok <==> CanGetBoth(old(Abs()), g.start + tail + 1, block[tail]))
      ensures ok ==> pc == Installing(tail + 1, old(pc).boot) && IoStep(g, old(Abs()), Abs())
      ensures ok ==> history == old(history) + [disk] && Leaves(g, disk, c)
      ensures !ok ==> history == old(history)
    {
      hide Core, LogMachine.InstallOne, LogMachine.Bread, Leaves, CanGetBoth, InUse, CommitNext, Gets, IoStep;
      ghost var m := Abs();
      CoreBasics(g, m, c, l);
      assert Home(g, m.lh[tail]);
      FirstOfTwo(m, g.start + tail + 1);
      ok := CopyHome(tail);
      if !ok { return; }
      pc := Installing(tail + 1, pc.boot);
      InstallIsStep(m);
      IoIsOneStep(m);
    }

    lemma GetsAfterBread(m: Machine, a: int, b: int)
      requires 0 <= a < |m.disk|
      ensures CanGet(Use(LogMachine.Bread(m, a), a), b) <==> CanGet(Use(m, a), b)
    {
      BreadPinsNothing(m, a);
      UseAdds(m, a);
      UseAdds(LogMachine.Bread(m, a), a);
      hide InUse;
    }

    lemma FirstOfTwo(m: Machine, a: int)
      requires Core(g, m, c, l) && 0 <= a < g.nblocks
      ensures |m.disk| == g.nblocks && Core(g, Use(LogMachine.Bread(m, a), a), c, l)
    {
      hide Core, LogMachine.Bread;
      CoreBasics(g, m, c, l);
      BreadKeeps(g, m, a, c, l);
      UsersKeep(g, LogMachine.Bread(m, a), m.held + multiset{a}, m.waiters, c, l);
    }

    lemma InstallIsStep(m: Machine)
      requires ValidGeometry(g) && |m.disk| == g.nblocks && SafeLh(g, m) && m.pc.Installing? && m.pc.tail < |m.lh|
      requires CanGetBoth(m, g.start + m.pc.tail + 1, m.lh[m.pc.tail])
      ensures IoStep(g, m, InstallOne(g, m, m.pc.tail).(pc := Installing(m.pc.tail + 1, m.pc.boot)))
    {
      hide InstallOne, LogOne, CanGetBoth, LogMachine.WriteHead;
    }

    /** How much room is left for the rest of the commit, or of the recovery. */
    ghost predicate Room(m: Machine) { if Booting(m) then BootRoom(g, m) else Roomy(g, m) }

    /** With room a step never panics and leaves room; without, recovery is left without. */
    lemma RoomStep(m: Machine)
      requires Core(g, m, c, l) && !m.pc.Idle?
      ensures ValidGeometry(g) && |m.disk| == g.nblocks && SafeLh(g, m)
      ensures Room(m) ==> Gets(g, m) && (CommitNext(g, m).pc.Idle? || Room(CommitNext(g, m)))
      ensures Booting(m) && !Room(m) && Gets(g, m) ==> !Room(CommitNext(g, m)) && Booting(CommitNext(g, m))
    {
      hide Core, CommitNext, Roomy, BootRoom, Gets;
      CoreBasics(g, m, c, l);
      if Booting(m) {
        BootRoomStep(g, m, c, l);
        IoKeepsBoot(g, m, c, l);
      } else {
        BusyCommits(m);
        if Room(m) { RoomyStep(g, m, c, l); }
        NotBootingNext(m);
      }
    }

    lemma BusyCommits(m: Machine)
      requires Core(g, m, c, l) && !m.pc.Idle? && !Booting(m)
      ensures m.committing
    {
    }

    lemma NotBootingNext(m: Machine)
      requires ValidGeometry(g) && |m.disk| == g.nblocks && SafeLh(g, m) && !Booting(m)
      ensures !Booting(CommitNext(g, m))
    {
    }

    /** install_trans; false is the panic of bread. */
    method InstallTrans() returns (ok: bool)
      requires Valid() && pc.Installing? && pc.tail == 0
      modifies this`cache, this`held, this`disk, this`history, this`pc, this`n
      ensures Valid() && old(history) <= history && CrashSafe(|old(history)|, c, c)
      ensures ok ==> pc == ClearHead(old(pc).boot) && n == 0 && IoPath(g, old(Abs()), Abs(), old(n) + 1)
      ensures ok ==> HomeEq(g, disk, c)
      ensures Room(old(Abs())) ==> ok && Room(Abs())
      ensures old(pc).boot && !Room(old(Abs())) && ok ==> !Room(Abs())
    {
      hide Core, IoStep, Leaves, InUse, IoPath, Room, CommitNext, Gets, CanGet, CanGetBoth;
      ghost var m0 := Abs();
      IoPathStart(g, m0);
      var tail := 0;
      while tail < n
        invariant Valid() && tail <= n == old(n) && pc == Installing(tail, old(pc).boot)
        invariant IoPath(g, m0, Abs(), tail)
        invariant Room(m0) ==> Room(Abs())
        invariant old(pc).boot && !Room(m0) ==> !Room(Abs())
        invariant old(history) <= history && CrashSafe(|old(history)|, c, c)
      {
        ghost var m := Abs();
        RoomStep(m);
        GetsIs(m);
        ok := InstallBlock(tail);
        if !ok { return; }
        StepIsNext(m, Abs());
        IoPathSnoc(g, m0, m, Abs(), tail);
        tail := tail + 1;
      }
      ghost var m := Abs();
      RoomStep(m);
      n := 0;
      pc := ClearHead(pc.boot);
      InstallAllDone(m);
      StepIsNext(m, Abs());
      IoPathSnoc(g, m0, m, Abs(), tail);
      return true;
    }

    lemma GetsIs(m: Machine)
      requires m.pc.Installing? && m.pc.tail < |m.lh|
      ensures Gets(g, m) <==> CanGetBoth(m, g.start + m.pc.tail + 1, m.lh[m.pc.tail])
    {
    }

    lemma InstallAllDone(m: Machine)
      requires Core(g, m, c, l) && Fits() && m.pc.Installing? && m.pc.tail == |m.lh|
      requires Abs() == m.(lh := [], pc := ClearHead(m.pc.boot))
      ensures Valid() && IoStep(g, m, Abs()) && HomeEq(g, disk, c)
    {
      CoreBasics(g, m, c, l);
      InstallDoneKeeps(g, m, c, l);
    }

    /** commit(): after it, the pending writes are durable and home, and a failure after any of
        its sector writes leaves a disk that recovers to all of them or to none.  It panics if and
        only if a block of the log area that it reads cannot have a buffer. */
    method Commit() returns (ok: bool)
      requires Valid() && committing && pc == (if n > 0 then Logging(0) else Closing)
      modifies this`cache, this`held, this`disk, this`history, this`pc, this`n, this`c
      ensures Valid() && (ok <==> old(n) == 0 || Roomy(g, old(Abs())))
      ensures old(history) <= history && CrashSafe(|old(history)|, old(c), l)
      ensures ok ==> pc == Closing && c == l && n == 0 && HomeEq(g, disk, l)
      ensures ok ==> IoPath(g, old(Abs()), Abs(), if old(n) > 0 then 2 * old(n) + 4 else 0)
      ensures old(n) == 0 ==> disk == old(disk) && history == old(history)
    {
      hide Core, IoStep, Leaves;
      if n > 0 {
        ok := CommitLogged();
      } else {
        ClosingFacts();
        return true;
      }
    }

    lemma ClosingFacts()
      requires Valid() && pc == Closing
      ensures c == l && n == 0 && |disk| == |c| == g.nblocks && HomeEq(g, disk, c)
    {
    }

    method CommitLogged() returns (ok: bool)
      requires Valid() && committing && n > 0 && pc == Logging(0)
      modifies this`cache, this`held, this`disk, this`history, this`pc, this`n, this`c
      ensures Valid() && (ok <==> Roomy(g, old(Abs())))
      ensures old(history) <= history && CrashSafe(|old(history)|, old(c), l)
      ensures ok ==> pc == Closing && c == l && n == 0 && HomeEq(g, disk, l)
      ensures ok ==> IoPath(g, old(Abs()), Abs(), 2 * old(n) + 4)
    {
      hide Core, IoStep, IoPath, Leaves, InUse, Room, Roomy, CanGet;
      ghost var m0 := Abs();
      ok := LogAndCommit();
      if !ok { return; }
      ghost var m2 := Abs();
      ok := InstallAndErase();
      IoPathConcat(g, m0, m2, Abs(), old(n) + 2, old(n) + 2);
    }

    /** write_log and write_head: up to the commit point. */
    method LogAndCommit() returns (ok: bool)
      requires Valid() && committing && n > 0 && pc == Logging(0)
      modifies this`cache, this`held, this`disk, this`history, this`pc, this`c
      ensures Valid() && (ok <==> Roomy(g, old(Abs())))
      ensures old(history) <= history && CrashSafe(|old(history)|, old(c), l)
      ensures ok ==> pc == Installing(0, false) && c == l && Room(Abs()) && IoPath(g, old(Abs()), Abs(), n + 2)
    {
      hide Core, IoStep, IoPath, Leaves, InUse, CommitNext, Gets, CanGet, BootRoom;
      ghost var m0 := Abs();
      ok := WriteLog();
      if !ok { return; }
      ghost var m1 := Abs();
      SameRoom(m0, m1);
      RoomStep(m1);
      ok := WriteHead();
      if !ok { return; }
      StepIsNext(m1, Abs());
      DiskRecovers();
      IoPathOne(g, m1, Abs());
      IoPathConcat(g, m0, m1, Abs(), n + 1, 1);
    }

    /** install_trans, log.lh.n = 0 and write_head: the end of a commit and of a recovery. */
    method InstallAndErase() returns (ok: bool)
      requires Valid() && pc.Installing? && pc.tail == 0
      modifies this`cache, this`held, this`disk, this`history, this`pc, this`n, this`c
      ensures Valid() && c == old(c) && (Room(old(Abs())) ==> ok) && (old(pc).boot && ok ==> Room(old(Abs())))
      ensures old(history) <= history && CrashSafe(|old(history)|, c, c)
      ensures ok ==> pc == (if old(pc).boot then Idle else Closing) && n == 0 && HomeEq(g, disk, c)
      ensures ok ==> GetHeader(disk[g.start]) == [] && IoPath(g, old(Abs()), Abs(), old(n) + 2)
    {
      hide Core, IoStep, IoPath, Leaves, InUse, CommitNext, Gets, CanGet, Room;
      ghost var m0 := Abs();
      ok := InstallTrans();
      if !ok { return; }
      ghost var m1 := Abs();
      RoomStep(m1);
      ClearNeedsHeader(m1);
      ok := WriteHead();
      if !ok { return; }
      DiskRecovers();
      ErasedFacts();
      IoPathOne(g, m1, Abs());
      IoPathConcat(g, m0, m1, Abs(), old(n) + 1, 1);
    }

    lemma SameRoom(m: Machine, m1: Machine)
      requires m1.held == m.held && InUse(m1) == InUse(m) && m1.lh == m.lh
      ensures Roomy(g, m1) == Roomy(g, m)
      ensures Roomy(g, m) <==> CanGet(m1, g.start) && forall b | g.start < b <= g.start + |m.lh| :: CanGet(m, b)
    {
      hide InUse;
      assert forall b :: CanGet(m1, b) <==> CanGet(m, b);
    }

    lemma DiskRecovers()
      requires Valid()
      ensures Leaves(g, disk, c)
    {
      LogSafety.RecoverableMeansRecovered(g, disk, c);
    }

    /** recover_from_log(): it ends with the committed contents on the home blocks and an empty
        log, and may itself be cut short after any sector write.  It panics if and only if the header,
        or a log block together with its destination, cannot have a buffer. */
    method RecoverFromLog() returns (ok: bool)
      requires Valid() && pc == ReadHead
      modifies this`cache, this`held, this`disk, this`history, this`pc, this`n, this`c, block
      ensures Valid() && (ok <==> BootRoom(g, old(Abs())))
      ensures old(history) <= history && CrashSafe(|old(history)|, c, c) && c == old(c)
      ensures ok ==> pc == Idle && n == 0 && HomeEq(g, disk, c) && GetHeader(disk[g.start]) == []
    {
      hide Core, IoStep, IoPath, Leaves, InUse, CommitNext, BootRoom, CanGet;
      ghost var m0 := Abs();
      RoomStep(m0);
      HeaderFirst(m0);
      ok := ReadHeader();
      if !ok { return; }
      StepIsNext(m0, Abs());
      ok := InstallAndErase();
    }

    lemma HeaderFirst(m: Machine)
      requires m.pc.ReadHead?
      ensures Gets(g, m) <==> CanGet(m, g.start)
    {
    }

    /** The header is all that erasing the log needs. */
    lemma ClearNeedsHeader(m: Machine)
      requires m.pc.ClearHead? && m.lh == []
      ensures Room(m) <==> CanGet(m, g.start)
    {
    }

    lemma ErasedFacts()
      requires Valid() && (pc == Idle || pc == Closing)
      ensures |disk| == |c| == g.nblocks && ValidGeometry(g) && HomeEq(g, disk, c)
      ensures GetHeader(disk[g.start]) == []
    {
    }

    /** One pass of begin_op's loop by process p, which sleeps and tries again when not admitted. */
    method BeginOp(p: int) returns (admitted: bool)
      requires Valid() && !Booting(Abs())
      modifies this`outstanding, this`waiters
      ensures Valid() && waiters == if admitted then old(waiters) else old(waiters) + {p}
      ensures admitted <==> !committing && n + (old(outstanding) + 1) * MAXOPBLOCKS <= LOGSIZE
      ensures outstanding == if admitted then old(outstanding) + 1 else old(outstanding)
      ensures LogMachine.BeginOp(old(Abs())) == if admitted then Next(Abs()) else Asleep
      ensures !admitted ==> Abs() == Sleep(old(Abs()), Begin(p))
    {
      hide Core;
      ghost var m := Abs();
      if committing || n + (outstanding + 1) * MAXOPBLOCKS > LOGSIZE {
        waiters := waiters + {p};
        UsersKeep(g, m, m.held, waiters, c, l);
        return false;
      }
      outstanding := outstanding + 1;
      BeginKeepsCore(g, m, c, l);
      return true;
    }

    /** log_write of a buffer whose contents are `data`; false is the panic. */
    method LogWrite(b: int, data: Block) returns (ok: bool)
      requires Valid() && !Booting(Abs()) && (committing ==> outstanding < 1) && Home(g, b) && |data.words| == WORDS
      modifies this`cache, this`n, this`l, block
      ensures ok <==> old(n) < LOGSIZE && old(n) < g.size - 1 && outstanding >= 1
      ensures ok ==> Valid() && |old(l)| == g.nblocks && l == old(l)[b := data]
      ensures ok ==> LogMachine.LogWrite(g, old(Abs()), b, data) == Next(Abs())
      ensures !ok ==> Valid() && Abs() == old(Abs()) && l == old(l)
    {
      hide Core;
      ghost var m := Abs();
      if n >= LOGSIZE || n >= g.size - 1 { return false; }
      if outstanding < 1 { return false; }
      var i := 0;
      while i < n
        invariant i <= n && forall j | 0 <= j < i :: block[j] != b
      {
        if block[i] == b { break; }
        i := i + 1;
      }
      block[i] := b;
      if i == n { n := n + 1; }
      cache := cache[b := Buf(data, true)];
      assert block[..n] == if b in m.lh then m.lh else m.lh + [b];
      CoreBasics(g, m, c, l);
      LogWriteKeeps(g, m, b, data, c, l);
      l := l[b := data];
      return true;
    }

    lemma IdleWhenOpen(m: Machine)
      requires Core(g, m, c, l) && !Booting(m) && !m.committing
      ensures m.pc == Idle
    {
    }

    /** end_op; false is its own panic, or that of bread in the commit.  The last operation out commits
        for the whole group; either way those asleep on the log are woken when they may go on. */
    method EndOp() returns (ok: bool)
      requires Valid() && !Booting(Abs())
      modifies this`cache, this`held, this`disk, this`history, this`pc, this`n, this`c, this`outstanding,
               this`committing, this`waiters
      ensures ok <==> !old(committing) && (old(outstanding) != 1 || old(n) == 0 || Roomy(g, old(Abs())))
      ensures old(history) <= history && CrashSafe(|old(history)|, old(c), l)
      ensures ok ==> Valid() && pc == Idle && !committing && outstanding == old(outstanding) - 1 && waiters == {}
      ensures ok && old(outstanding) != 1 ==> c == old(c) && disk == old(disk)
      ensures ok && old(n) == 0 ==> disk == old(disk) && history == old(history)
      ensures ok && old(outstanding) == 1 ==> c == l && n == 0 && |disk| == |l| == g.nblocks && HomeEq(g, disk, l)
    {
      hide Core, IoPath, Leaves, InUse, CommitNext, CanGet, GetHeader;
      ghost var m := Abs();
      outstanding := outstanding - 1;
      if committing { return false; }
      IdleWhenOpen(m);
      EndKeepsCore(g, m, c, l);
      CoreBasics(g, m, c, l);
      if outstanding == 0 {
        committing := true;
        pc := if n > 0 then Logging(0) else Closing;
        SameUse(m, Abs());
        ok := Commit();
        if !ok { return; }
        ghost var m1 := Abs();
        committing := false;
        waiters := {};
        pc := Idle;
        ClosingKeeps(g, m1, c, l);
        ErasedFacts();
      } else {
        waiters := {};
      }
      return true;
    }
  }
}
