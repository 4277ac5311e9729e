/** The write-ahead log of log.c as a state machine whose steps are the points at
    which the machine can be interrupted: one sector write, one critical section
    under log.lock, one buffer-cache fill or eviction, or a power failure.

    `Machine` is what the kernel has: the disk, the buffer cache and struct log.
    `Spec` is what a caller is promised: the log_writes that are durable and the
    ones that are pending.  `Inv` ties the two together. */
module LogMachine {
  import opened Params

  const WORDS: nat := 128

  /** A sector, seen as the unsigned words in it (128 of them). */
  datatype Block = Block(words: seq<int>)
  type Disk = seq<Block>

  datatype Geometry = Geometry(start: nat, size: nat, nblocks: nat)

  predicate InLog(g: Geometry, b: int) { g.start <= b < g.start + g.size }

  /** A block that callers may log: on the disk, outside the log area. */
  predicate Home(g: Geometry, b: int) { 0 <= b < g.nblocks && !InLog(g, b) }

  predicate ValidGeometry(g: Geometry) { 1 <= g.size && g.start + g.size <= g.nblocks }

  /** The number of blocks at which log_write gives up. */
  function Capacity(g: Geometry): nat
    requires ValidGeometry(g)
  {
    if LOGSIZE < g.size - 1 then LOGSIZE else g.size - 1
  }

  // ----- the header sector -----

  /** write_head overwrites the count and the first |bs| entries and leaves the rest. */
  function PutHeader(hb: Block, bs: seq<int>): (r: Block) {
    Block([|bs|] + bs + (if 1 + |bs| <= |hb.words| then hb.words[1 + |bs|..] else []))
  }

  /** The loop of read_head: entries 1 to n of the header sector. */
  function Entries(words: seq<int>, n: nat): seq<int>
    requires n < |words|
  {
    if n == 0 then [] else Entries(words, n - 1) + [words[n]]
  }

  /** A header sector whose count fits struct logheader. */
  predicate HeaderOk(hb: Block) {
    0 < |hb.words| && 0 <= hb.words[0] <= LOGSIZE && hb.words[0] < |hb.words|
  }

  /** read_head; a count that does not fit has no meaning. */
  function GetHeader(hb: Block): seq<int> {
    if HeaderOk(hb) then Entries(hb.words, hb.words[0]) else []
  }

  lemma {:induction false} EntriesOfPut(words: seq<int>, bs: seq<int>, n: nat)
    requires n <= |bs| < |words| && forall i | 0 <= i < |bs| :: words[1 + i] == bs[i]
    ensures Entries(words, n) == bs[..n]
  {
    if n > 0 { EntriesOfPut(words, bs, n - 1); }
  }

  lemma HeaderRoundTrip(hb: Block, bs: seq<int>)
    requires |bs| <= LOGSIZE
    ensures HeaderOk(PutHeader(hb, bs)) && GetHeader(PutHeader(hb, bs)) == bs
    ensures |hb.words| == WORDS ==> |PutHeader(hb, bs).words| == WORDS
    ensures PutHeader(hb, bs).words[0] == |bs| && forall i | 0 <= i < |bs| :: PutHeader(hb, bs).words[1 + i] == bs[i]
  {
    EntriesOfPut(PutHeader(hb, bs).words, bs, |bs|);
  }

  // ----- the machine -----

  datatype Buf = Buf(data: Block, dirty: bool)

  /** Where the committing (or booting) process is. */
  datatype Pc =
    | Idle
    | Logging(tail: nat)
    | CommitHead
    | Installing(tail: nat, boot: bool)
    | ClearHead(boot: bool)
    | Closing
    | ReadHead

  /** `held` counts the uses of each block's buffer (refcnt), those of processes waiting for its lock
      included; `waiters` are the processes asleep in begin_op. */
  datatype Machine = Machine(
    disk: Disk,
    cache: map<int, Buf>,
    held: multiset<int>,
    lh: seq<int>,
    outstanding: int,
    committing: bool,
    waiters: set<int>,
    pc: Pc)

  predicate Booting(m: Machine) {
    m.pc.ReadHead? || (m.pc.Installing? && m.pc.boot) || (m.pc.ClearHead? && m.pc.boot)
  }

  /** Everything but the disk and the buffers. */
  predicate SameLog(m: Machine, r: Machine) {
    && r.lh == m.lh && r.outstanding == m.outstanding && r.committing == m.committing && r.pc == m.pc
    && r.held == m.held && r.waiters == m.waiters
  }

  /** The blocks whose buffers bget may not recycle: dirty ones, and those somebody uses. */
  function InUse(m: Machine): set<int> {
    (set b | b in m.cache && m.cache[b].dirty) + (set b | b in m.held)
  }

  /** Whether bget(b) has a buffer to return; otherwise it panics.  While not all NBUF buffers are in
      use it recycles one if need be, and when they all are, the blocks cached are those in use. */
  predicate CanGet(m: Machine, b: int) { b in InUse(m) || |InUse(m)| < NBUF }

  function Use(m: Machine, b: int): Machine { m.(held := m.held + multiset{b}) }

  /** bread(a), and with that buffer still in use, bread(b). */
  predicate CanGetBoth(m: Machine, a: int, b: int) { CanGet(m, a) && CanGet(Use(m, a), b) }

  /** What bread(b) returns. */
  function View(m: Machine, b: int): Block
    requires 0 <= b < |m.disk|
  {
    if b in m.cache then m.cache[b].data else m.disk[b]
  }

  function Bread(m: Machine, b: int): (r: Machine)
    requires 0 <= b < |m.disk|
    ensures SameLog(m, r) && r.disk == m.disk
  {
    if b in m.cache then m else m.(cache := m.cache[b := Buf(m.disk[b], false)])
  }

  /** bwrite: one atomic sector write, after which the buffer is clean. */
  function Bwrite(m: Machine, b: int, data: Block): (r: Machine)
    requires 0 <= b < |m.disk|
    ensures SameLog(m, r) && |r.disk| == |m.disk|
  {
    m.(disk := m.disk[b := data], cache := m.cache[b := Buf(data, false)])
  }

  /** Read is a bread that lasts until Release, its brelse; Write is a log_write of a buffer in use. */
  datatype Event =
    | Begin(p: int)
    | Write(k: nat, b: int, data: Block)
    | End(k: nat)
    | Read(b: int)
    | Release(b: int)
    | Evict(b: int)
    | Io
    | Crash

  /** Stuck: the event is not one this machine can take (the caller broke a rule). */
  datatype Outcome = Next(m: Machine) | Asleep | Panic | Stuck

  function BeginOp(m: Machine): Outcome {
    if m.committing then Asleep
    else if |m.lh| + (m.outstanding + 1) * MAXOPBLOCKS > LOGSIZE then Asleep
    else Next(m.(outstanding := m.outstanding + 1))
  }

  function LogWrite(g: Geometry, m: Machine, b: int, data: Block): Outcome {
    if |m.lh| >= LOGSIZE || |m.lh| >= g.size - 1 then Panic
    else if m.outstanding < 1 then Panic
    else Next(m.(lh := if b in m.lh then m.lh else m.lh + [b],
                 cache := m.cache[b := Buf(data, true)]))
  }

  /** Unless it is the last one out, end_op wakes those asleep in begin_op. */
  function EndOp(m: Machine): Outcome {
    if m.committing then Panic
    else if m.outstanding - 1 == 0 then
      Next(m.(outstanding := 0, committing := true,
              pc := if |m.lh| > 0 then Logging(0) else Closing))
    else Next(m.(outstanding := m.outstanding - 1, waiters := {}))
  }

  predicate SafeLh(g: Geometry, m: Machine) {
    |m.lh| <= LOGSIZE && |m.lh| < g.size && (forall i | 0 <= i < |m.lh| :: 0 <= m.lh[i] < |m.disk|)
  }

  /** One iteration of write_log.  (The destination is read too, and overwritten.) */
  function LogOne(g: Geometry, m: Machine, tail: nat): (r: Machine)
    requires ValidGeometry(g) && |m.disk| == g.nblocks && SafeLh(g, m) && tail < |m.lh|
    ensures SameLog(m, r) && |r.disk| == |m.disk|
  {
    Bwrite(Bread(m, m.lh[tail]), g.start + tail + 1, View(m, m.lh[tail]))
  }

  /** One iteration of install_trans.  (The destination is read too, and overwritten.) */
  function InstallOne(g: Geometry, m: Machine, tail: nat): (r: Machine)
    requires ValidGeometry(g) && |m.disk| == g.nblocks && SafeLh(g, m) && tail < |m.lh|
    ensures SameLog(m, r) && |r.disk| == |m.disk|
  {
    Bwrite(Bread(m, g.start + tail + 1), m.lh[tail], View(m, g.start + tail + 1))
  }

  function WriteHead(g: Geometry, m: Machine): (r: Machine)
    requires ValidGeometry(g) && |m.disk| == g.nblocks && SafeLh(g, m)
    ensures SameLog(m, r) && |r.disk| == |m.disk|
  {
    Bwrite(m, g.start, PutHeader(View(m, g.start), m.lh))
  }

  /** Whether the buffers that the next step of commit() or recover_from_log() reads can be had. */
  predicate Gets(g: Geometry, m: Machine) {
    match m.pc
    case Logging(t) => t < |m.lh| ==> CanGetBoth(m, g.start + t + 1, m.lh[t])
    case Installing(t, _) => t < |m.lh| ==> CanGetBoth(m, g.start + t + 1, m.lh[t])
    case CommitHead => CanGet(m, g.start)
    case ClearHead(_) => CanGet(m, g.start)
    case ReadHead => CanGet(m, g.start)
    case _ => true
  }

  /** What that step does once it has them. */
  function CommitNext(g: Geometry, m: Machine): (r: Machine)
    requires ValidGeometry(g) && |m.disk| == g.nblocks && SafeLh(g, m)
    ensures r.held == m.held && |r.disk| == |m.disk|
  {
    match m.pc
    case Idle => m
    case Logging(t) => if t < |m.lh| then LogOne(g, m, t).(pc := Logging(t + 1)) else m.(pc := CommitHead)
    case CommitHead => WriteHead(g, m).(pc := Installing(0, false))
    case Installing(t, boot) =>
      if t < |m.lh| then InstallOne(g, m, t).(pc := Installing(t + 1, boot))
      else m.(lh := [], pc := ClearHead(boot))
    case ClearHead(boot) => WriteHead(g, m).(pc := if boot then Idle else Closing)
    case Closing => m.(committing := false, waiters := {}, pc := Idle)
    case ReadHead =>
      Bread(m, g.start).(lh := GetHeader(View(m, g.start)), pc := Installing(0, true))
  }

  /** The next step of the process inside commit() or recover_from_log(), a panic if bread finds no
      buffer.  It gives back the buffers it took. */
  function CommitStep(g: Geometry, m: Machine): Outcome
    requires ValidGeometry(g) && |m.disk| == g.nblocks && SafeLh(g, m)
  {
    if m.pc.Idle? then Stuck
    else if !Gets(g, m) then Panic
    else Next(CommitNext(g, m))
  }

  /** Power failure: only the disk survives. */
  function PowerFail(m: Machine): Machine {
    Machine(m.disk, map[], multiset{}, [], 0, false, {}, ReadHead)
  }

  function Step(g: Geometry, m: Machine, e: Event): Outcome
    requires ValidGeometry(g) && |m.disk| == g.nblocks && SafeLh(g, m)
  {
    match e
    case Begin(p) => if Booting(m) || p in m.waiters then Stuck else BeginOp(m)
    case Write(_, b, data) =>
      if Booting(m) || !Home(g, b) || b !in m.held then Stuck else LogWrite(g, m, b, data)
    case End(_) => if Booting(m) then Stuck else EndOp(m)
    case Read(b) =>
      if !(0 <= b < |m.disk|) then Stuck else if !CanGet(m, b) then Panic else Next(Use(Bread(m, b), b))
    case Release(b) => if b in m.held then Next(m.(held := m.held - multiset{b})) else Stuck
    case Evict(b) =>
      if b in m.cache && !m.cache[b].dirty && b !in m.held then Next(m.(cache := m.cache - {b})) else Stuck
    case Io => CommitStep(g, m)
    case Crash => Next(PowerFail(m))
  }

  // ----- what callers are promised -----

  /** A log_write, tagged with the operation that issued it. */
  datatype Wr = Wr(id: nat, b: int, data: Block)

  /** An operation between begin_op and end_op, with the distinct blocks it has logged. */
  datatype Op = Op(id: nat, blocks: set<int>)

  datatype Spec = Spec(durable: seq<Wr>, pending: seq<Wr>, issued: seq<Wr>, ops: seq<Op>, nextId: nat)

  datatype State = State(m: Machine, a: Spec)

  function Apply(d: Disk, ws: seq<Wr>): (r: Disk)
    ensures |r| == |d|
  {
    if ws == [] then d
    else
      var p := Apply(d, ws[..|ws| - 1]);
      var w := ws[|ws| - 1];
      if 0 <= w.b < |p| then p[w.b := w.data] else p
  }

  /** The specification's own reaction to an event the machine has taken. */
  function SpecStep(m: Machine, a: Spec, e: Event): Spec
    requires e.Write? || e.End? ==> e.k < |a.ops|
  {
    match e
    case Begin(_) => a.(ops := a.ops + [Op(a.nextId, {})], nextId := a.nextId + 1)
    case Write(k, b, data) =>
      var w := Wr(a.ops[k].id, b, data);
      a.(pending := a.pending + [w], issued := a.issued + [w],
         ops := a.ops[k := Op(a.ops[k].id, a.ops[k].blocks + {b})])
    case End(k) => a.(ops := a.ops[..k] + a.ops[k + 1..])
    case Io => if m.pc.CommitHead? then a.(durable := a.durable + a.pending, pending := []) else a
    case Crash => a.(pending := [], ops := [])
    case _ => a
  }

  /** The joint state after `e`, if the system is still running. */
  datatype MaybeState = Running(s: State) | Stopped

  /** Whether `e` can be looked at: the in-memory header fits, and the process named is in an operation. */
  predicate Ready(g: Geometry, s: State, e: Event) {
    && ValidGeometry(g) && |s.m.disk| == g.nblocks && SafeLh(g, s.m)
    && (e.Write? || e.End? ==> e.k < |s.a.ops|)
  }

  /** begin_op goes to sleep on the log. */
  function Sleep(m: Machine, e: Event): Machine {
    if e.Begin? then m.(waiters := m.waiters + {e.p}) else m
  }

  function Joint(g: Geometry, s: State, e: Event): MaybeState {
    if !Ready(g, s, e) then Stopped
    else
      match Step(g, s.m, e)
      case Next(m') => Running(State(m', SpecStep(s.m, s.a, e)))
      case Asleep => Running(State(Sleep(s.m, e), s.a))
      case _ => Stopped
  }

  function Run(g: Geometry, s: State, es: seq<Event>): MaybeState {
    if es == [] then Running(s)
    else
      match Run(g, s, es[..|es| - 1])
      case Stopped => Stopped
      case Running(s') => Joint(g, s', es[|es| - 1])
  }

  // ----- the invariant -----

  ghost predicate NoDup(s: seq<int>) { forall i, j | 0 <= i < j < |s| :: s[i] != s[j] }

  ghost predicate GoodList(g: Geometry, l: seq<int>)
    requires ValidGeometry(g)
  {
    |l| <= Capacity(g) && NoDup(l) && forall i | 0 <= i < |l| :: Home(g, l[i])
  }

  /** Recovery from `disk` would produce the home blocks of `c`. */
  ghost predicate Recoverable(g: Geometry, disk: Disk, c: Disk)
    requires ValidGeometry(g) && |disk| == |c| == g.nblocks
  {
    var h := GetHeader(disk[g.start]);
    && HeaderOk(disk[g.start])
    && GoodList(g, h)
    && (forall i | 0 <= i < |h| :: disk[g.start + 1 + i] == c[h[i]])
    && (forall b: int | Home(g, b) && b !in h :: disk[b] == c[b])
  }

  ghost predicate LogCopies(g: Geometry, disk: Disk, l: seq<int>, c: Disk, n: nat)
    requires ValidGeometry(g) && |disk| == |c| == g.nblocks && GoodList(g, l) && n <= |l|
  {
    forall i | 0 <= i < n :: disk[g.start + 1 + i] == c[l[i]]
  }

  ghost predicate CacheOk(g: Geometry, m: Machine)
    requires |m.disk| == g.nblocks
  {
    forall b | b in m.cache ::
      && 0 <= b < g.nblocks
      && (!m.cache[b].dirty ==> m.cache[b].data == m.disk[b])
      && (m.cache[b].dirty ==> b in m.lh)
  }

  /** Every block in the in-memory header is pinned with its latest contents, and
      the latest contents of every other block are the committed ones. */
  ghost predicate Pinned(g: Geometry, m: Machine, c: Disk, l: Disk)
    requires |m.disk| == |c| == |l| == g.nblocks
  {
    forall b | 0 <= b < g.nblocks ::
      if b in m.lh then b in m.cache && m.cache[b] == Buf(l[b], true) else l[b] == c[b]
  }

  ghost predicate HomeEq(g: Geometry, d: Disk, c: Disk)
    requires |d| == |c| == g.nblocks
  {
    forall b: int | Home(g, b) :: d[b] == c[b]
  }

  ghost predicate Installed(g: Geometry, m: Machine, c: Disk, t: nat)
    requires |m.disk| == |c| == g.nblocks
  {
    && t <= |m.lh|
    && (forall i | 0 <= i < |m.lh| :: 0 <= m.lh[i] < g.nblocks)
    && (forall i | 0 <= i < t :: m.disk[m.lh[i]] == c[m.lh[i]])
  }

  ghost predicate DirtyRest(g: Geometry, m: Machine, c: Disk, t: nat)
    requires |m.disk| == |c| == g.nblocks && t <= |m.lh|
  {
    && (forall i | 0 <= i < |m.lh| :: 0 <= m.lh[i] < g.nblocks)
    && (forall i | 0 <= i < t :: m.lh[i] in m.cache ==> !m.cache[m.lh[i]].dirty)
    && (forall i | t <= i < |m.lh| :: m.lh[i] in m.cache && m.cache[m.lh[i]] == Buf(c[m.lh[i]], true))
  }

  ghost predicate AllClean(m: Machine) { forall b | b in m.cache :: !m.cache[b].dirty }

  /** `c` is the committed disk, `l` the disk with the pending writes on top. */
  ghost predicate PhaseInv(g: Geometry, m: Machine, c: Disk, l: Disk)
    requires ValidGeometry(g) && |m.disk| == |c| == |l| == g.nblocks && GoodList(g, m.lh)
  {
    match m.pc
    case Idle => !m.committing && GetHeader(m.disk[g.start]) == [] && Pinned(g, m, c, l)
    case Logging(t) =>
      && m.committing && GetHeader(m.disk[g.start]) == [] && Pinned(g, m, c, l)
      && t <= |m.lh| && LogCopies(g, m.disk, m.lh, l, t)
    case CommitHead =>
      && m.committing && GetHeader(m.disk[g.start]) == [] && Pinned(g, m, c, l)
      && LogCopies(g, m.disk, m.lh, l, |m.lh|)
    case Installing(t, boot) =>
      && m.committing == !boot && l == c && GetHeader(m.disk[g.start]) == m.lh && Installed(g, m, c, t)
      && (if boot then AllClean(m) else DirtyRest(g, m, c, t))
    case ClearHead(boot) =>
      m.committing == !boot && l == c && m.lh == [] && AllClean(m) && HomeEq(g, m.disk, c)
    case Closing =>
      m.committing && l == c && m.lh == [] && AllClean(m) && GetHeader(m.disk[g.start]) == []
    case ReadHead => !m.committing && l == c && m.lh == [] && AllClean(m)
  }

  ghost predicate Core(g: Geometry, m: Machine, c: Disk, l: Disk) {
    && ValidGeometry(g)
    && |m.disk| == |c| == |l| == g.nblocks
    && GoodList(g, m.lh)
    && Recoverable(g, m.disk, c)
    && CacheOk(g, m)
    && PhaseInv(g, m, c, l)
  }

  ghost predicate OpsInv(m: Machine, a: Spec) {
    && m.outstanding == |a.ops|
    && (m.committing || Booting(m) ==> a.ops == [])
    && (forall i | 0 <= i < |a.ops| :: a.ops[i].id < a.nextId)
    && (forall i, j | 0 <= i < j < |a.ops| :: a.ops[i].id != a.ops[j].id)
    && (forall i | 0 <= i < |a.ops| :: forall b | b in a.ops[i].blocks :: b in m.lh)
  }

  ghost predicate Inv(g: Geometry, d0: Disk, s: State) {
    && Core(g, s.m, Apply(d0, s.a.durable), Apply(Apply(d0, s.a.durable), s.a.pending))
    && OpsInv(s.m, s.a)
  }

  /** A freshly booted machine on the disk that mkfs wrote: the log is empty. */
  ghost predicate Init(g: Geometry, d0: Disk, s: State) {
    && ValidGeometry(g) && |d0| == g.nblocks
    && HeaderOk(d0[g.start]) && GetHeader(d0[g.start]) == []
    && s == State(Machine(d0, map[], multiset{}, [], 0, false, {}, ReadHead), Spec([], [], [], [], 0))
  }

  lemma InitInv(g: Geometry, d0: Disk, s: State)
    requires Init(g, d0, s)
    ensures Inv(g, d0, s)
  {
  }

  // ----- each kind of step keeps the invariant -----

  lemma BreadKeeps(g: Geometry, m: Machine, b: int, c: Disk, l: Disk)
    requires Core(g, m, c, l) && 0 <= b < g.nblocks
    ensures Core(g, Bread(m, b), c, l)
  {
    hide GetHeader, HeaderOk;
    var m' := Bread(m, b);
    assert CacheOk(g, m');
    match m.pc {
      case Installing(t, boot) => if !boot { assert DirtyRest(g, m', c, t); }
      case _ =>
    }
  }

  /** Who uses a buffer and who waits for the log is no part of what the disk and the cache promise. */
  lemma UsersKeep(g: Geometry, m: Machine, held: multiset<int>, waiters: set<int>, c: Disk, l: Disk)
    requires Core(g, m, c, l)
    ensures Core(g, m.(held := held, waiters := waiters), c, l)
  {
  }

  lemma EvictKeeps(g: Geometry, m: Machine, b: int, c: Disk, l: Disk)
    requires Core(g, m, c, l) && b in m.cache && !m.cache[b].dirty
    ensures Core(g, m.(cache := m.cache - {b}), c, l)
  {
  }

  lemma LogWriteKeeps(g: Geometry, m: Machine, b: int, data: Block, c: Disk, l: Disk)
    requires Core(g, m, c, l) && Home(g, b) && !m.committing && !Booting(m)
    requires LogWrite(g, m, b, data).Next?
    ensures Core(g, LogWrite(g, m, b, data).m, c, l[b := data])
  {
    hide GetHeader, HeaderOk;
    var m' := LogWrite(g, m, b, data).m;
    assert GoodList(g, m'.lh);
    assert CacheOk(g, m');
    assert Pinned(g, m', c, l[b := data]);
  }

  /** Writing log block `t` with the pinned contents of the block it stands for. */
  lemma LogBlockKeeps(g: Geometry, m: Machine, c: Disk, l: Disk)
    requires Core(g, m, c, l) && m.pc.Logging? && m.pc.tail < |m.lh|
    ensures var t := m.pc.tail;
      Core(g, Bwrite(m, g.start + t + 1, l[m.lh[t]]).(pc := Logging(t + 1)), c, l)
  {
    var t := m.pc.tail;
    var x := g.start + t + 1;
    assert InLog(g, x);
    var m' := Bwrite(m, x, l[m.lh[t]]).(pc := Logging(t + 1));
    assert m'.disk[g.start] == m.disk[g.start];
    assert LogCopies(g, m'.disk, m'.lh, l, t + 1);
  }

  lemma LogOneKeeps(g: Geometry, m: Machine, c: Disk, l: Disk)
    requires Core(g, m, c, l) && m.pc.Logging? && m.pc.tail < |m.lh|
    ensures Core(g, LogOne(g, m, m.pc.tail).(pc := Logging(m.pc.tail + 1)), c, l)
  {
    BreadKeeps(g, m, m.lh[m.pc.tail], c, l);
    LogBlockKeeps(g, Bread(m, m.lh[m.pc.tail]), c, l);
  }

  lemma CommitHeadRecoverable(g: Geometry, m: Machine, c: Disk, l: Disk)
    requires Core(g, m, c, l) && m.pc.CommitHead?
    ensures GetHeader(WriteHead(g, m).disk[g.start]) == m.lh
    ensures Recoverable(g, WriteHead(g, m).disk, l)
  {
    hide GetHeader, HeaderOk, PutHeader, CacheOk;
    var d := WriteHead(g, m).disk;
    HeaderRoundTrip(View(m, g.start), m.lh);
    assert d == m.disk[g.start := d[g.start]];
    forall b: int | Home(g, b) && b !in m.lh
      ensures d[b] == l[b]
    {
      assert b !in GetHeader(m.disk[g.start]);
    }
    forall i | 0 <= i < |m.lh|
      ensures d[g.start + 1 + i] == l[m.lh[i]]
    {
      assert d[g.start + 1 + i] == m.disk[g.start + 1 + i];
    }
  }

  lemma PinnedIsDirty(g: Geometry, m: Machine, c: Disk, l: Disk)
    requires Core(g, m, c, l) && m.pc.CommitHead?
    ensures DirtyRest(g, WriteHead(g, m), l, 0)
  {
  }

  lemma CommitHeadKeeps(g: Geometry, m: Machine, c: Disk, l: Disk)
    requires Core(g, m, c, l) && m.pc.CommitHead?
    ensures Core(g, WriteHead(g, m).(pc := Installing(0, false)), l, l)
  {
    var m' := WriteHead(g, m).(pc := Installing(0, false));
    CommitHeadRecoverable(g, m, c, l);
    PinnedIsDirty(g, m, c, l);
    assert g.start !in m.lh by { assert InLog(g, g.start); }
    assert CacheOk(g, m');
  }

  lemma InstallOneRecoverable(g: Geometry, disk: Disk, c: Disk, b: int)
    requires ValidGeometry(g) && |disk| == |c| == g.nblocks && Home(g, b)
    requires Recoverable(g, disk, c)
    ensures Recoverable(g, disk[b := c[b]], c)
    ensures GetHeader(disk[b := c[b]][g.start]) == GetHeader(disk[g.start])
  {
    hide GetHeader, HeaderOk, Capacity;
    var d := disk[b := c[b]];
    assert InLog(g, g.start);
    var h := GetHeader(disk[g.start]);
    forall i | 0 <= i < |h|
      ensures g.start + 1 + i < |d| && d[g.start + 1 + i] == c[h[i]]
    {
      CapacityInLog(g, h, i);
    }
  }

  lemma CapacityInLog(g: Geometry, h: seq<int>, i: int)
    requires ValidGeometry(g) && GoodList(g, h) && 0 <= i < |h|
    ensures InLog(g, g.start + 1 + i) && g.start + 1 + i < g.nblocks
  {
  }

  /** `m'` is `m` after a bread of some block and a bwrite of `data` to `b`. */
  ghost predicate WroteOne(m: Machine, m': Machine, b: int, data: Block)
    requires 0 <= b < |m.disk|
  {
    && m'.disk == m.disk[b := data]
    && m'.lh == m.lh && m'.committing == m.committing
    && b in m'.cache && m'.cache[b] == Buf(data, false)
    && (forall x | x in m.cache && x != b :: x in m'.cache && m'.cache[x] == m.cache[x])
    && (forall x | x in m'.cache && x != b && x !in m.cache ::
          0 <= x < |m.disk| && m'.cache[x] == Buf(m.disk[x], false))
  }

  lemma InstallCache(g: Geometry, m: Machine, m': Machine, b: int, data: Block)
    requires |m.disk| == g.nblocks && CacheOk(g, m) && 0 <= b < g.nblocks && WroteOne(m, m', b, data)
    ensures CacheOk(g, m') && (AllClean(m) ==> AllClean(m'))
  {
  }

  lemma InstallDirty(g: Geometry, m: Machine, m': Machine, c: Disk, t: nat)
    requires |m.disk| == |c| == g.nblocks && NoDup(m.lh)
    requires t < |m.lh| && DirtyRest(g, m, c, t) && WroteOne(m, m', m.lh[t], c[m.lh[t]])
    ensures DirtyRest(g, m', c, t + 1)
  {
  }

  lemma InstallInstalled(g: Geometry, m: Machine, m': Machine, c: Disk, t: nat)
    requires |m.disk| == |c| == g.nblocks
    requires t < |m.lh| && Installed(g, m, c, t) && WroteOne(m, m', m.lh[t], c[m.lh[t]])
    ensures Installed(g, m', c, t + 1)
  {
  }

  lemma InstallWroteOne(g: Geometry, m: Machine, c: Disk, l: Disk)
    requires Core(g, m, c, l) && m.pc.Installing? && m.pc.tail < |m.lh|
    ensures var b := m.lh[m.pc.tail]; WroteOne(m, InstallOne(g, m, m.pc.tail), b, c[b])
  {
    hide GetHeader, HeaderOk;
    var src := g.start + m.pc.tail + 1;
    assert InLog(g, src) && src !in m.lh;
    assert m.disk[g.start + 1 + m.pc.tail] == c[m.lh[m.pc.tail]];
  }

  lemma InstallBlockKeeps(g: Geometry, m: Machine, m': Machine, c: Disk, l: Disk)
    requires Core(g, m, c, l) && m.pc.Installing? && m.pc.tail < |m.lh|
    requires var b := m.lh[m.pc.tail]; WroteOne(m, m', b, c[b])
    requires m'.pc == Installing(m.pc.tail + 1, m.pc.boot)
    ensures Core(g, m', c, l)
  {
    hide GetHeader, HeaderOk, Recoverable, CacheOk, AllClean, Installed, DirtyRest;
    var t := m.pc.tail;
    InstallCache(g, m, m', m.lh[t], c[m.lh[t]]);
    InstallOneRecoverable(g, m.disk, c, m.lh[t]);
    InstallInstalled(g, m, m', c, t);
    if !m.pc.boot { InstallDirty(g, m, m', c, t); }
  }

  lemma InstallOneKeeps(g: Geometry, m: Machine, c: Disk, l: Disk)
    requires Core(g, m, c, l) && m.pc.Installing? && m.pc.tail < |m.lh|
    ensures Core(g, InstallOne(g, m, m.pc.tail).(pc := Installing(m.pc.tail + 1, m.pc.boot)), c, l)
  {
    InstallWroteOne(g, m, c, l);
    InstallBlockKeeps(g, m, InstallOne(g, m, m.pc.tail).(pc := Installing(m.pc.tail + 1, m.pc.boot)), c, l);
  }

  lemma InstallDoneKeeps(g: Geometry, m: Machine, c: Disk, l: Disk)
    requires Core(g, m, c, l) && m.pc.Installing? && m.pc.tail == |m.lh|
    ensures Core(g, m.(lh := [], pc := ClearHead(m.pc.boot)), c, l)
  {
  }

  lemma ClearHeadKeeps(g: Geometry, m: Machine, c: Disk, l: Disk)
    requires Core(g, m, c, l) && m.pc.ClearHead?
    ensures Core(g, WriteHead(g, m).(pc := if m.pc.boot then Idle else Closing), c, l)
  {
    var m' := WriteHead(g, m).(pc := if m.pc.boot then Idle else Closing);
    HeaderRoundTrip(View(m, g.start), []);
    assert HeaderOk(m'.disk[g.start]) && GetHeader(m'.disk[g.start]) == [];
  }

  lemma ReadHeadKeeps(g: Geometry, m: Machine, c: Disk, l: Disk)
    requires Core(g, m, c, l) && m.pc.ReadHead?
    ensures Core(g, CommitNext(g, m), c, l)
  {
    BreadKeeps(g, m, g.start, c, l);
  }

  lemma ApplyConcat(d: Disk, u: seq<Wr>, v: seq<Wr>)
    ensures Apply(d, u + v) == Apply(Apply(d, u), v)
  {
    if v == [] {
      assert u + v == u;
    } else {
      var w := u + v;
      assert w[..|w| - 1] == u + v[..|v| - 1];
      ApplyConcat(d, u, v[..|v| - 1]);
    }
  }

  lemma ApplyOne(d: Disk, u: seq<Wr>, w: Wr)
    requires 0 <= w.b < |d|
    ensures Apply(d, u + [w]) == Apply(d, u)[w.b := w.data]
  {
  }

  lemma LoggingKeeps(g: Geometry, m: Machine, c: Disk, l: Disk)
    requires Core(g, m, c, l) && m.pc.Logging?
    ensures Core(g, CommitNext(g, m), c, l)
  {
    hide LogOne, GetHeader, HeaderOk;
    if m.pc.tail < |m.lh| { LogOneKeeps(g, m, c, l); } else { LoggingDoneKeeps(g, m, c, l); }
  }

  lemma InstallingKeeps(g: Geometry, m: Machine, c: Disk, l: Disk)
    requires Core(g, m, c, l) && m.pc.Installing?
    ensures Core(g, CommitNext(g, m), c, l)
  {
    hide InstallOne, GetHeader, HeaderOk;
    if m.pc.tail < |m.lh| { InstallOneKeeps(g, m, c, l); } else { InstallDoneKeeps(g, m, c, l); }
  }

  lemma IoKeepsCore(g: Geometry, m: Machine, c: Disk, l: Disk)
    requires Core(g, m, c, l) && CommitStep(g, m).Next?
    ensures Core(g, CommitStep(g, m).m, if m.pc.CommitHead? then l else c, l)
  {
    hide Core, LogOne, InstallOne, WriteHead, GetHeader, View, Bread, Gets;
    match m.pc {
      case Logging(_) => LoggingKeeps(g, m, c, l);
      case CommitHead => CommitHeadKeeps(g, m, c, l);
      case Installing(_, _) => InstallingKeeps(g, m, c, l);
      case ClearHead(_) => ClearHeadKeeps(g, m, c, l);
      case ReadHead => ReadHeadKeeps(g, m, c, l);
      case Closing => ClosingKeeps(g, m, c, l);
      case Idle =>
    }
  }

  lemma LoggingDoneKeeps(g: Geometry, m: Machine, c: Disk, l: Disk)
    requires Core(g, m, c, l) && m.pc.Logging? && |m.lh| <= m.pc.tail
    ensures Core(g, m.(pc := CommitHead), c, l)
  {
  }

  lemma ClosingKeeps(g: Geometry, m: Machine, c: Disk, l: Disk)
    requires Core(g, m, c, l) && m.pc.Closing?
    ensures Core(g, m.(committing := false, waiters := {}, pc := Idle), c, l)
  {
  }

  lemma CrashKeepsCore(g: Geometry, m: Machine, c: Disk, l: Disk)
    requires Core(g, m, c, l)
    ensures Core(g, PowerFail(m), c, c)
  {
  }

  lemma EndKeepsCore(g: Geometry, m: Machine, c: Disk, l: Disk)
    requires Core(g, m, c, l) && !Booting(m) && EndOp(m).Next?
    ensures Core(g, EndOp(m).m, c, l)
  {
  }

  lemma BeginKeepsCore(g: Geometry, m: Machine, c: Disk, l: Disk)
    requires Core(g, m, c, l) && BeginOp(m).Next?
    ensures Core(g, BeginOp(m).m, c, l)
  {
  }
}
