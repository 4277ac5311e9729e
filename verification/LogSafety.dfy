/** What the write-ahead log guarantees over every run: any interleaving of file
    system operations with the commit, and a power failure between any two steps. */
module LogSafety {
  import opened LogMachine
  import opened Params

  // ----- the invariant holds in every reachable state -----

  /** The latest disk contents after `e`. */
  function LatestAfter(m: Machine, e: Event, c: Disk, l: Disk): Disk
    requires |c| == |l|
  {
    match e
    case Write(_, b, data) => if 0 <= b < |l| then l[b := data] else l
    case Crash => c
    case _ => l
  }

  function CommittedAfter(m: Machine, e: Event, c: Disk, l: Disk): Disk {
    if e.Io? && m.pc.CommitHead? then l else c
  }

  lemma StepKeepsCore(g: Geometry, m: Machine, e: Event, c: Disk, l: Disk)
    requires Core(g, m, c, l) && Step(g, m, e).Next?
    requires e.Write? ==> !m.committing
    ensures Core(g, Step(g, m, e).m, CommittedAfter(m, e, c, l), LatestAfter(m, e, c, l))
  {
    assert |l| == |m.disk| == g.nblocks;
    hide Core, BeginOp, EndOp, LogWrite, CommitStep, Bread, PowerFail, GetHeader, CanGet;
    match e {
      case Begin(_) => BeginKeepsCore(g, m, c, l);
      case Write(k, b, data) => LogWriteKeeps(g, m, b, data, c, l);
      case End(k) => EndKeepsCore(g, m, c, l);
      case Read(b) =>
        BreadKeeps(g, m, b, c, l);
        UsersKeep(g, Bread(m, b), m.held + multiset{b}, m.waiters, c, l);
      case Release(b) => UsersKeep(g, m, m.held - multiset{b}, m.waiters, c, l);
      case Evict(b) => EvictKeeps(g, m, b, c, l);
      case Crash => CrashKeepsCore(g, m, c, l);
      case Io => IoKeepsCore(g, m, c, l);
    }
  }

  lemma SpecMatches(m: Machine, a: Spec, e: Event, d0: Disk)
    requires e.Write? || e.End? ==> e.k < |a.ops|
    requires e.Write? ==> 0 <= e.b < |d0|
    ensures var a' := SpecStep(m, a, e);
      var c := Apply(d0, a.durable);
      var l := Apply(c, a.pending);
      && Apply(d0, a'.durable) == CommittedAfter(m, e, c, l)
      && Apply(Apply(d0, a'.durable), a'.pending) == LatestAfter(m, e, c, l)
  {
    hide Apply;
    var c := Apply(d0, a.durable);
    ApplyNone(c);
    if e.Write? {
      ApplyOne(c, a.pending, Wr(a.ops[e.k].id, e.b, e.data));
    } else if e.Io? && m.pc.CommitHead? {
      ApplyConcat(d0, a.durable, a.pending);
      ApplyNone(Apply(c, a.pending));
    }
  }

  lemma ApplyNone(d: Disk)
    ensures Apply(d, []) == d
  {
  }

  lemma OpsWrite(g: Geometry, m: Machine, a: Spec, k: nat, b: int, data: Block)
    requires OpsInv(m, a) && k < |a.ops| && LogWrite(g, m, b, data).Next? && !Booting(m)
    ensures OpsInv(LogWrite(g, m, b, data).m, SpecStep(m, a, Write(k, b, data)))
  {
  }

  lemma OpsEnd(m: Machine, a: Spec, k: nat)
    requires OpsInv(m, a) && k < |a.ops| && EndOp(m).Next? && !Booting(m)
    ensures OpsInv(EndOp(m).m, SpecStep(m, a, End(k)))
  {
  }

  lemma OpsIo(g: Geometry, m: Machine, a: Spec, c: Disk, l: Disk)
    requires Core(g, m, c, l) && OpsInv(m, a) && CommitStep(g, m).Next?
    ensures OpsInv(CommitStep(g, m).m, SpecStep(m, a, Io))
  {
    assert m.committing || Booting(m);
    assert m.pc.Closing? || m.pc.ClearHead? ==> a.ops == [];
    hide LogOne, InstallOne, WriteHead, GetHeader, View, Bread;
  }

  lemma StepKeepsOps(g: Geometry, s: State, e: Event, c: Disk, l: Disk)
    requires Core(g, s.m, c, l) && OpsInv(s.m, s.a) && Ready(g, s, e) && Step(g, s.m, e).Next?
    ensures OpsInv(Step(g, s.m, e).m, SpecStep(s.m, s.a, e))
  {
    match e {
      case Write(k, b, data) => OpsWrite(g, s.m, s.a, k, b, data);
      case End(k) => OpsEnd(s.m, s.a, k);
      case Io => OpsIo(g, s.m, s.a, c, l);
      case _ =>
    }
  }

  /** Every step of the running system keeps the invariant. */
  lemma StepKeepsInv(g: Geometry, d0: Disk, s: State, e: Event)
    requires Inv(g, d0, s) && Joint(g, s, e).Running?
    ensures Inv(g, d0, Joint(g, s, e).s)
  {
    var c := Apply(d0, s.a.durable);
    var l := Apply(c, s.a.pending);
    if Step(g, s.m, e).Next? {
      assert e.Write? ==> s.a.ops != [];
      StepKeepsCore(g, s.m, e, c, l);
      SpecMatches(s.m, s.a, e, d0);
      StepKeepsOps(g, s, e, c, l);
    } else {
      UsersKeep(g, s.m, s.m.held, Sleep(s.m, e).waiters, c, l);
    }
  }

  lemma {:induction false} RunKeepsInv(g: Geometry, d0: Disk, s: State, es: seq<Event>)
    requires Inv(g, d0, s) && Run(g, s, es).Running?
    ensures Inv(g, d0, Run(g, s, es).s)
  {
    if es != [] {
      RunKeepsInv(g, d0, s, es[..|es| - 1]);
      StepKeepsInv(g, d0, Run(g, s, es[..|es| - 1]).s, es[|es| - 1]);
    }
  }

  // ----- durability -----

  /** install_trans as one function from disk to disk, driven by the on-disk header. */
  function InstallAll(g: Geometry, d: Disk, h: seq<int>, n: nat): (r: Disk)
    requires ValidGeometry(g) && |d| == g.nblocks && n <= |h| < g.size
    ensures |r| == |d|
  {
    if n == 0 then d
    else
      var p := InstallAll(g, d, h, n - 1);
      if 0 <= h[n - 1] < |p| then p[h[n - 1] := d[g.start + n]] else p
  }

  /** What an uninterrupted recovery makes of a disk. */
  function Recovered(g: Geometry, d: Disk): (r: Disk)
    requires ValidGeometry(g) && |d| == g.nblocks
    ensures |r| == |d|
  {
    var h := GetHeader(d[g.start]);
    if |h| < g.size then InstallAll(g, d, h, |h|) else d
  }

  lemma {:induction false} InstallAllIs(g: Geometry, d: Disk, c: Disk, h: seq<int>, n: nat)
    requires ValidGeometry(g) && |d| == |c| == g.nblocks && GoodList(g, h) && n <= |h|
    requires LogCopies(g, d, h, c, |h|)
    ensures forall i | 0 <= i < n :: InstallAll(g, d, h, n)[h[i]] == c[h[i]]
    ensures forall b: int | 0 <= b < |d| && b !in h :: InstallAll(g, d, h, n)[b] == d[b]
  {
    if n > 0 {
      InstallAllIs(g, d, c, h, n - 1);
      assert Home(g, h[n - 1]);
      assert d[g.start + 1 + (n - 1)] == c[h[n - 1]];
    }
  }

  lemma RecoverableMeansRecovered(g: Geometry, d: Disk, c: Disk)
    requires ValidGeometry(g) && |d| == |c| == g.nblocks && Recoverable(g, d, c)
    ensures HomeEq(g, Recovered(g, d), c)
  {
    var h := GetHeader(d[g.start]);
    InstallAllIs(g, d, c, h, |h|);
    forall b: int | Home(g, b)
      ensures Recovered(g, d)[b] == c[b]
    {
      if b in h { var i :| 0 <= i < |h| && h[i] == b; }
    }
  }

  /** After every run from boot, power failures included, recovering the disk gives exactly the
      durable log_writes applied in the order they were issued, and none of the pending ones. */
  lemma DiskAlwaysRecoversToDurable(g: Geometry, d0: Disk, s0: State, es: seq<Event>)
    requires Init(g, d0, s0) && Run(g, s0, es).Running?
    ensures var s := Run(g, s0, es).s;
      |s.m.disk| == g.nblocks && HomeEq(g, Recovered(g, s.m.disk), Apply(d0, s.a.durable))
  {
    InitInv(g, d0, s0);
    RunKeepsInv(g, d0, s0, es);
    var s := Run(g, s0, es).s;
    RecoverableMeansRecovered(g, s.m.disk, Apply(d0, s.a.durable));
  }

  /** Outside recovery, bread returns the latest write of every home block, absorbed or not. */
  lemma ReadersSeeLatest(g: Geometry, d0: Disk, s0: State, es: seq<Event>, b: int)
    requires Init(g, d0, s0) && Run(g, s0, es).Running? && Home(g, b)
    requires !Booting(Run(g, s0, es).s.m)
    ensures var s := Run(g, s0, es).s;
      b < |s.m.disk| && View(s.m, b) == Apply(Apply(d0, s.a.durable), s.a.pending)[b]
  {
    InitInv(g, d0, s0);
    RunKeepsInv(g, d0, s0, es);
    ViewIsLatest(g, Run(g, s0, es).s.m, Apply(d0, Run(g, s0, es).s.a.durable),
                 Apply(Apply(d0, Run(g, s0, es).s.a.durable), Run(g, s0, es).s.a.pending), b);
  }

  lemma ViewIsLatest(g: Geometry, m: Machine, c: Disk, l: Disk, b: int)
    requires Core(g, m, c, l) && !Booting(m) && Home(g, b)
    ensures View(m, b) == l[b]
  {
  }

  // ----- recovery that is itself interrupted -----

  predicate RecoveryEvent(e: Event) { e.Io? || e.Crash? || e.Read? || e.Release? || e.Evict? }

  /** Boot in progress, or just finished. */
  predicate InRecovery(s: State) {
    s.a.pending == [] && s.a.ops == [] && (Booting(s.m) || (s.m.pc.Idle? && s.m.lh == []))
  }

  lemma RecoveryStep(g: Geometry, d0: Disk, s: State, e: Event)
    requires Inv(g, d0, s) && InRecovery(s) && RecoveryEvent(e) && Joint(g, s, e).Running?
    ensures InRecovery(Joint(g, s, e).s) && Joint(g, s, e).s.a.durable == s.a.durable
  {
    hide Gets, CanGet, LogOne, InstallOne, WriteHead, GetHeader, Bread, View;
  }

  lemma {:induction false} RecoveryRun(g: Geometry, d0: Disk, s: State, es: seq<Event>)
    requires Inv(g, d0, s) && InRecovery(s) && Run(g, s, es).Running?
    requires forall i | 0 <= i < |es| :: RecoveryEvent(es[i])
    ensures var s' := Run(g, s, es).s;
      Inv(g, d0, s') && InRecovery(s') && s'.a.durable == s.a.durable
  {
    if es != [] {
      RecoveryRun(g, d0, s, es[..|es| - 1]);
      var t := Run(g, s, es[..|es| - 1]).s;
      StepKeepsInv(g, d0, t, es[|es| - 1]);
      RecoveryStep(g, d0, t, es[|es| - 1]);
    }
  }

  /** Lose power in any reachable state, then reboot: however often recovery is cut short and
      started again, when it finally completes every home block on the disk itself holds the
      durable contents as of the failure, and the log is empty. */
  lemma CrashThenRecover(g: Geometry, d0: Disk, s0: State, es: seq<Event>, rs: seq<Event>)
    requires Init(g, d0, s0) && Run(g, s0, es).Running?
    requires forall i | 0 <= i < |rs| :: RecoveryEvent(rs[i])
    requires Run(g, s0, es + [Crash] + rs).Running? && !Booting(Run(g, s0, es + [Crash] + rs).s.m)
    ensures var s := Run(g, s0, es).s;
      var s' := Run(g, s0, es + [Crash] + rs).s;
      && s'.a.durable == s.a.durable && s'.m.pc.Idle? && |s'.m.disk| == g.nblocks
      && HomeEq(g, s'.m.disk, Apply(d0, s.a.durable))
      && GetHeader(s'.m.disk[g.start]) == []
  {
    hide Inv, Joint;
    var s := Run(g, s0, es).s;
    InitInv(g, d0, s0);
    RunKeepsInv(g, d0, s0, es);
    assert (es + [Crash])[..|es|] == es;
    CrashStarts(g, d0, s);
    var t := Run(g, s0, es + [Crash]).s;
    RunConcat(g, s0, es + [Crash], rs);
    RecoveryRun(g, d0, t, rs);
    RecoveryEnds(g, d0, Run(g, t, rs).s);
  }

  lemma CrashStarts(g: Geometry, d0: Disk, s: State)
    requires Inv(g, d0, s)
    ensures var r := Joint(g, s, Crash);
      r.Running? && Inv(g, d0, r.s) && InRecovery(r.s) && r.s.a.durable == s.a.durable
  {
    hide CommitStep, GetHeader;
    StepKeepsInv(g, d0, s, Crash);
  }

  lemma RecoveryEnds(g: Geometry, d0: Disk, s: State)
    requires Inv(g, d0, s) && InRecovery(s) && !Booting(s.m)
    ensures s.m.pc.Idle? && ValidGeometry(g) && |d0| == |s.m.disk| == g.nblocks
    ensures HomeEq(g, s.m.disk, Apply(d0, s.a.durable)) && GetHeader(s.m.disk[g.start]) == []
  {
    hide HeaderOk;
  }

  lemma {:induction false} RunConcat(g: Geometry, s: State, u: seq<Event>, v: seq<Event>)
    requires Run(g, s, u).Running?
    ensures Run(g, s, u + v) == Run(g, Run(g, s, u).s, v)
  {
    hide Joint;
    if v == [] {
      assert u + v == u;
    } else {
      var w := u + v;
      assert w[..|w| - 1] == u + v[..|v| - 1];
      RunConcat(g, s, u, v[..|v| - 1]);
    }
  }

  /** Each step of the committing or recovering process gets closer to the end. */
  function Remaining(m: Machine): int {
    match m.pc
    case ReadHead => LOGSIZE + 4
    case Logging(t) => 2 * |m.lh| + 6 - t
    case CommitHead => |m.lh| + 5
    case Installing(t, _) => |m.lh| + 3 - t
    case ClearHead(_) => 2
    case Closing => 1
    case Idle => 0
  }

  /** Each step of commit and of recovery that is not the panic for want of a buffer brings the end
      nearer. */
  lemma CommitProgress(g: Geometry, m: Machine, c: Disk, l: Disk)
    requires Core(g, m, c, l) && !m.pc.Idle?
    ensures if Gets(g, m) then CommitStep(g, m).Next? else CommitStep(g, m).Panic?
    ensures 0 <= Remaining(CommitNext(g, m)) < Remaining(m)
  {
    hide LogOne, InstallOne, WriteHead, HeaderOk, Gets;
    assert GoodList(g, GetHeader(m.disk[g.start]));
  }

  // ----- operations are atomic -----

  /** The writes of operation `id`, in order. */
  function Only(ws: seq<Wr>, id: nat): seq<Wr> {
    if ws == [] then []
    else
      var p := Only(ws[..|ws| - 1], id);
      if ws[|ws| - 1].id == id then p + [ws[|ws| - 1]] else p
  }

  lemma {:induction false} OnlyConcat(u: seq<Wr>, v: seq<Wr>, id: nat)
    ensures Only(u + v, id) == Only(u, id) + Only(v, id)
  {
    if v == [] {
      assert u + v == u;
    } else {
      var w := u + v;
      assert w[..|w| - 1] == u + v[..|v| - 1];
      OnlyConcat(u, v[..|v| - 1], id);
    }
  }

  ghost predicate Active(a: Spec, id: nat) { exists i :: 0 <= i < |a.ops| && a.ops[i].id == id }

  /** What is true of one operation's writes: durable as a whole, or not at all. */
  ghost predicate AtomicOp(a: Spec, id: nat) {
    var all := Only(a.issued, id);
    var p := Only(a.pending, id);
    var d := Only(a.durable, id);
    && (p == [] || p == all)
    && (d == [] || (d == all && p == [] && !Active(a, id)))
    && (Active(a, id) ==> p == all)
    && (id >= a.nextId ==> all == p == d == [])
  }

  ghost predicate AtomicInv(a: Spec) {
    && (forall i | 0 <= i < |a.ops| :: a.ops[i].id < a.nextId)
    && (forall i, j | 0 <= i < j < |a.ops| :: a.ops[i].id != a.ops[j].id)
    && forall id: nat :: AtomicOp(a, id)
  }

  lemma StepKeepsAtomic(m: Machine, a: Spec, e: Event)
    requires AtomicInv(a) && (e.Write? || e.End? ==> e.k < |a.ops|)
    requires e.Io? && m.pc.CommitHead? ==> a.ops == []
    ensures AtomicInv(SpecStep(m, a, e))
  {
    var a' := SpecStep(m, a, e);
    forall id: nat
      ensures AtomicOp(a', id)
    {
      assert AtomicOp(a, id);
      AtomicOne(m, a, e, id);
    }
  }

  lemma AtomicOne(m: Machine, a: Spec, e: Event, id: nat)
    requires AtomicInv(a) && AtomicOp(a, id) && (e.Write? || e.End? ==> e.k < |a.ops|)
    requires e.Io? && m.pc.CommitHead? ==> a.ops == []
    ensures AtomicOp(SpecStep(m, a, e), id)
  {
    var a' := SpecStep(m, a, e);
    match e {
      case Begin(_) =>
        if Active(a', id) && !Active(a, id) {
          var i :| 0 <= i < |a'.ops| && a'.ops[i].id == id;
          assert i == |a.ops|;
        }
      case Write(k, b, data) => AtomicWrite(m, a, k, b, data, id);
      case End(k) =>
        if Active(a', id) {
          var i :| 0 <= i < |a'.ops| && a'.ops[i].id == id;
          assert a.ops[if i < k then i else i + 1].id == id;
        }
      case Io =>
        if m.pc.CommitHead? { OnlyConcat(a.durable, a.pending, id); }
      case _ =>
    }
  }

  lemma AtomicWrite(m: Machine, a: Spec, k: nat, b: int, data: Block, id: nat)
    requires AtomicInv(a) && AtomicOp(a, id) && k < |a.ops|
    ensures AtomicOp(SpecStep(m, a, Write(k, b, data)), id)
  {
  }

  lemma {:induction false} RunKeepsAtomic(g: Geometry, d0: Disk, s: State, es: seq<Event>)
    requires Inv(g, d0, s) && AtomicInv(s.a) && Run(g, s, es).Running?
    ensures AtomicInv(Run(g, s, es).s.a)
  {
    if es != [] {
      var t := Run(g, s, es[..|es| - 1]).s;
      RunKeepsAtomic(g, d0, s, es[..|es| - 1]);
      RunKeepsInv(g, d0, s, es[..|es| - 1]);
      if Step(g, t.m, es[|es| - 1]).Next? {
        StepKeepsAtomic(t.m, t.a, es[|es| - 1]);
      }
    }
  }

  /** Group commit never splits an operation: in every reachable state, crashes included, the
      durable part of an operation's writes is nothing or everything it ever issued. */
  lemma OperationsAllOrNothing(g: Geometry, d0: Disk, s0: State, es: seq<Event>, id: nat)
    requires Init(g, d0, s0) && Run(g, s0, es).Running?
    ensures var a := Run(g, s0, es).s.a;
      Only(a.durable, id) == [] || (Only(a.durable, id) == Only(a.issued, id) && !Active(a, id))
  {
    InitInv(g, d0, s0);
    RunKeepsAtomic(g, d0, s0, es);
    assert AtomicOp(Run(g, s0, es).s.a, id);
  }
}
