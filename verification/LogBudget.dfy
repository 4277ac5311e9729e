/** The space reservation of begin_op: if every operation logs at most MAXOPBLOCKS distinct
    blocks, the header never outgrows LOGSIZE, and exactly when log_write still panics. */
module LogBudget {
  import opened LogMachine
  import opened Params
  import opened SetFacts
  import LogSafety

  /** The blocks that the outstanding operations may still log. */
  function Unused(ops: seq<Op>): int {
    if ops == [] then 0
    else Unused(ops[..|ops| - 1]) + MAXOPBLOCKS - |ops[|ops| - 1].blocks|
  }

  /** No operation goes over its budget. */
  predicate Disciplined(a: Spec, e: Event) {
    e.Write? && e.k < |a.ops| ==> |a.ops[e.k].blocks + {e.b}| <= MAXOPBLOCKS
  }

  ghost predicate DisciplinedRun(g: Geometry, s: State, es: seq<Event>) {
    es == [] ||
    (&& DisciplinedRun(g, s, es[..|es| - 1])
     && Run(g, s, es[..|es| - 1]).Running?
     && Disciplined(Run(g, s, es[..|es| - 1]).s.a, es[|es| - 1]))
  }

  ghost predicate BudgetInv(m: Machine, a: Spec) {
    && |m.lh| + Unused(a.ops) <= LOGSIZE
    && forall i | 0 <= i < |a.ops| :: |a.ops[i].blocks| <= MAXOPBLOCKS
  }

  lemma UnusedAppend(ops: seq<Op>, op: Op)
    ensures Unused(ops + [op]) == Unused(ops) + MAXOPBLOCKS - |op.blocks|
  {
  }

  lemma {:induction false} UnusedUpdate(ops: seq<Op>, k: nat, op: Op)
    requires k < |ops|
    ensures Unused(ops[k := op]) == Unused(ops) + |ops[k].blocks| - |op.blocks|
  {
    var n := |ops| - 1;
    if k == n {
      assert ops[k := op][..n] == ops[..n];
    } else {
      assert ops[k := op][..n] == ops[..n][k := op];
      UnusedUpdate(ops[..n], k, op);
    }
  }

  lemma {:induction false} UnusedRemove(ops: seq<Op>, k: nat)
    requires k < |ops|
    ensures Unused(ops[..k] + ops[k + 1..]) == Unused(ops) - MAXOPBLOCKS + |ops[k].blocks|
  {
    var n := |ops| - 1;
    if k == n {
      assert ops[..k] + ops[k + 1..] == ops[..n];
    } else {
      var r := ops[..k] + ops[k + 1..];
      assert r[..|r| - 1] == ops[..n][..k] + ops[..n][k + 1..];
      UnusedRemove(ops[..n], k);
    }
  }

  lemma {:induction false} UnusedAtMost(ops: seq<Op>)
    ensures Unused(ops) <= |ops| * MAXOPBLOCKS
  {
    if ops != [] { UnusedAtMost(ops[..|ops| - 1]); }
  }

  lemma {:induction false} UnusedNonNegative(ops: seq<Op>)
    requires forall i | 0 <= i < |ops| :: |ops[i].blocks| <= MAXOPBLOCKS
    ensures 0 <= Unused(ops)
  {
    if ops != [] { UnusedNonNegative(ops[..|ops| - 1]); }
  }

  lemma BudgetWrite(g: Geometry, m: Machine, a: Spec, k: nat, b: int, data: Block)
    requires OpsInv(m, a) && BudgetInv(m, a) && k < |a.ops|
    requires Disciplined(a, Write(k, b, data)) && LogWrite(g, m, b, data).Next?
    ensures BudgetInv(LogWrite(g, m, b, data).m, SpecStep(m, a, Write(k, b, data)))
  {
    var mine := a.ops[k].blocks;
    assert b in mine ==> mine + {b} == mine;
    assert b !in m.lh ==> b !in mine;
    UnusedUpdate(a.ops, k, Op(a.ops[k].id, mine + {b}));
  }

  lemma BudgetIo(g: Geometry, m: Machine, a: Spec, c: Disk, l: Disk)
    requires Core(g, m, c, l) && OpsInv(m, a) && CommitStep(g, m).Next? && BudgetInv(m, a)
    ensures BudgetInv(CommitStep(g, m).m, SpecStep(m, a, Io))
  {
    assert !m.pc.Idle?;
    hide Core, CommitStep, GetHeader;
    BusyWhenNotIdle(g, m, c, l);
    LogSafety.StepKeepsCore(g, m, Io, c, l);
    HeaderFitsLog(g, CommitStep(g, m).m, LogSafety.CommittedAfter(m, Io, c, l), l);
  }

  lemma BusyWhenNotIdle(g: Geometry, m: Machine, c: Disk, l: Disk)
    requires Core(g, m, c, l) && !m.pc.Idle?
    ensures m.committing || Booting(m)
  {
  }

  lemma HeaderFitsLog(g: Geometry, m: Machine, c: Disk, l: Disk)
    requires Core(g, m, c, l)
    ensures |m.lh| <= LOGSIZE
  {
  }

  lemma BudgetBegin(m: Machine, a: Spec, p: int)
    requires OpsInv(m, a) && BudgetInv(m, a) && BeginOp(m).Next?
    ensures BudgetInv(BeginOp(m).m, SpecStep(m, a, Begin(p)))
  {
    UnusedAppend(a.ops, Op(a.nextId, {}));
    UnusedAtMost(a.ops);
  }

  lemma BudgetEnd(m: Machine, a: Spec, k: nat)
    requires OpsInv(m, a) && BudgetInv(m, a) && k < |a.ops| && EndOp(m).Next?
    ensures BudgetInv(EndOp(m).m, SpecStep(m, a, End(k)))
  {
    UnusedRemove(a.ops, k);
    assert |a.ops[k].blocks| <= MAXOPBLOCKS;
  }

  lemma StepKeepsBudget(g: Geometry, s: State, e: Event, c: Disk, l: Disk)
    requires Core(g, s.m, c, l) && OpsInv(s.m, s.a) && BudgetInv(s.m, s.a)
    requires Ready(g, s, e) && Step(g, s.m, e).Next? && Disciplined(s.a, e)
    ensures BudgetInv(Step(g, s.m, e).m, SpecStep(s.m, s.a, e))
  {
    match e {
      case Begin(p) => BudgetBegin(s.m, s.a, p);
      case Write(k, b, data) => BudgetWrite(g, s.m, s.a, k, b, data);
      case End(k) => BudgetEnd(s.m, s.a, k);
      case Io => BudgetIo(g, s.m, s.a, c, l);
      case _ =>
    }
  }

  /** In every state reached by operations that keep to their budgets, the header together with
      everything the outstanding operations may still log fits in LOGSIZE, without duplicates. */
  lemma {:induction false} ReservationHolds(g: Geometry, d0: Disk, s0: State, es: seq<Event>)
    requires Init(g, d0, s0) && Run(g, s0, es).Running? && DisciplinedRun(g, s0, es)
    ensures var s := Run(g, s0, es).s;
      && |s.m.lh| + Unused(s.a.ops) <= LOGSIZE && 0 <= Unused(s.a.ops)
      && BudgetInv(s.m, s.a) && NoDup(s.m.lh)
  {
    InitInv(g, d0, s0);
    LogSafety.RunKeepsInv(g, d0, s0, es);
    if es != [] {
      var t := Run(g, s0, es[..|es| - 1]).s;
      ReservationHolds(g, d0, s0, es[..|es| - 1]);
      LogSafety.RunKeepsInv(g, d0, s0, es[..|es| - 1]);
      if Step(g, t.m, es[|es| - 1]).Next? {
        StepKeepsBudget(g, t, es[|es| - 1], Apply(d0, t.a.durable), Apply(Apply(d0, t.a.durable), t.a.pending));
      }
    }
    UnusedNonNegative(Run(g, s0, es).s.a.ops);
  }

  // ----- the panics -----

  /** end_op's panic and log_write's "outside of trans" are unreachable, no operation starts or
      logs while a commit is under way, and a commit only runs when no operation is. */
  lemma CommitExcludesOperations(g: Geometry, d0: Disk, s0: State, es: seq<Event>)
    requires Init(g, d0, s0) && Run(g, s0, es).Running?
    ensures var s := Run(g, s0, es).s;
      && (s.m.committing ==> s.m.outstanding == 0 && s.a.ops == [] && BeginOp(s.m) == Asleep)
      && (s.a.ops != [] ==> EndOp(s.m).Next? && s.m.outstanding >= 1)
  {
    InitInv(g, d0, s0);
    LogSafety.RunKeepsInv(g, d0, s0, es);
  }

  /** "too big a transaction" happens exactly when the header is full, even for a block that
      would have been absorbed. */
  lemma LogWritePanicsIffFull(g: Geometry, d0: Disk, s0: State, es: seq<Event>, b: int, data: Block)
    requires Init(g, d0, s0) && Run(g, s0, es).Running? && Run(g, s0, es).s.a.ops != []
    ensures var s := Run(g, s0, es).s;
      LogWrite(g, s.m, b, data).Panic? <==> |s.m.lh| == Capacity(g)
  {
    InitInv(g, d0, s0);
    LogSafety.RunKeepsInv(g, d0, s0, es);
  }

  /** A run, and a log_write of a buffer in use within its operation's budget. */
  ghost predicate BudgetedWrite(g: Geometry, s0: State, es: seq<Event>, k: nat, b: int) {
    && DisciplinedRun(g, s0, es) && Run(g, s0, es).Running?
    && k < |Run(g, s0, es).s.a.ops| && Home(g, b) && b in Run(g, s0, es).s.m.held
    && |Run(g, s0, es).s.a.ops[k].blocks + {b}| <= MAXOPBLOCKS
  }

  /** The same, of a block that the header does not have yet. */
  ghost predicate BudgetedFreshWrite(g: Geometry, s0: State, es: seq<Event>, k: nat, b: int) {
    BudgetedWrite(g, s0, es, k, b) && b !in Run(g, s0, es).s.m.lh
  }

  lemma BigLogNeverPanics(g: Geometry, d0: Disk, s0: State, es: seq<Event>, k: nat, b: int, data: Block)
    requires Init(g, d0, s0) && LOGSIZE < g.size && BudgetedFreshWrite(g, s0, es, k, b)
    ensures LogWrite(g, Run(g, s0, es).s.m, b, data).Next?
  {
    var s := Run(g, s0, es).s;
    ReservationHolds(g, d0, s0, es);
    InitInv(g, d0, s0);
    LogSafety.RunKeepsInv(g, d0, s0, es);
    var op := s.a.ops[k];
    assert b !in op.blocks;
    UnusedUpdate(s.a.ops, k, Op(op.id, op.blocks + {b}));
    UnusedNonNegative(s.a.ops[k := Op(op.id, op.blocks + {b})]);
  }

  // ----- a log that mkfs makes too small by one block -----

  /** Boot on an empty log, then start three operations. */
  function Opening(): seq<Event> { [Io, Io, Io, Begin(1), Begin(2), Begin(3)] }

  /** Operation j/10 logs the j-th block behind the log area. */
  function FillEvent(g: Geometry, j: nat): Event {
    Write(j / MAXOPBLOCKS, g.start + g.size + j, Block([]))
  }

  /** The first j blocks, each read, logged and released. */
  function Fill(g: Geometry, j: nat): seq<Event> {
    if j == 0 then Opening()
    else Fill(g, j - 1) + [Read(FillEvent(g, j - 1).b)] + [FillEvent(g, j - 1)] + [Release(FillEvent(g, j - 1).b)]
  }

  /** How many of the first j blocks operation i has logged. */
  function Share(i: nat, j: nat): nat {
    if j <= i * MAXOPBLOCKS then 0
    else if j >= (i + 1) * MAXOPBLOCKS then MAXOPBLOCKS
    else j - i * MAXOPBLOCKS
  }

  ghost predicate Filled(g: Geometry, r: MaybeState, j: nat, held: multiset<int>) {
    && r.Running? && r.s.m.held == held && r.s.m.waiters == {}
    && (forall b | b in r.s.m.cache && r.s.m.cache[b].dirty :: b in r.s.m.lh)
    && (forall b | b in r.s.m.lh :: b in r.s.m.cache && r.s.m.cache[b].dirty)
    && !Booting(r.s.m) && !r.s.m.committing
    && r.s.m.outstanding == 3 && |r.s.m.disk| == g.nblocks && |r.s.a.ops| == 3
    && |r.s.m.lh| == j && (forall i | 0 <= i < j :: r.s.m.lh[i] == g.start + g.size + i)
    && (forall i | 0 <= i < 3 :: |r.s.a.ops[i].blocks| <= Share(i, j))
    && (j > 0 ==> g.start + g.size in r.s.a.ops[0].blocks)
  }

  lemma Snoc(g: Geometry, s0: State, es: seq<Event>, e: Event)
    requires Run(g, s0, es).Running?
    ensures Run(g, s0, es + [e]) == Joint(g, Run(g, s0, es).s, e)
    ensures DisciplinedRun(g, s0, es) && Disciplined(Run(g, s0, es).s.a, e) ==> DisciplinedRun(g, s0, es + [e])
  {
  }

  /** The state after the first `k` steps of a boot on an empty log. */
  ghost predicate BootAt(g: Geometry, r: MaybeState, pc: Pc) {
    && r.Running? && r.s.m.pc == pc && r.s.m.lh == [] && r.s.m.outstanding == 0 && !r.s.m.committing
    && |r.s.m.disk| == g.nblocks && r.s.a.ops == [] && r.s.m.held == multiset{} && r.s.m.waiters == {}
    && (forall b | b in r.s.m.cache :: !r.s.m.cache[b].dirty)
  }

  lemma BootSteps(g: Geometry, d0: Disk, s0: State)
    requires Init(g, d0, s0)
    ensures BootAt(g, Run(g, s0, [Io, Io, Io]), Idle) && DisciplinedRun(g, s0, [Io, Io, Io])
  {
    assert BootAt(g, Run(g, s0, [Io]), Installing(0, true)) && DisciplinedRun(g, s0, [Io]) by {
      Snoc(g, s0, [], Io);
      assert [] + [Io] == [Io];
    }
    var s1 := Run(g, s0, [Io]).s;
    assert BootAt(g, Run(g, s0, [Io, Io]), ClearHead(true)) && DisciplinedRun(g, s0, [Io, Io]) by {
      Snoc(g, s0, [Io], Io);
      assert [Io] + [Io] == [Io, Io];
      BootStep(g, s1);
    }
    var s2 := Run(g, s0, [Io, Io]).s;
    Snoc(g, s0, [Io, Io], Io);
    assert [Io, Io] + [Io] == [Io, Io, Io];
    BootStep(g, s2);
  }

  lemma BootStep(g: Geometry, s: State)
    requires ValidGeometry(g)
    ensures BootAt(g, Running(s), Installing(0, true)) ==> BootAt(g, Joint(g, s, Io), ClearHead(true))
    ensures BootAt(g, Running(s), ClearHead(true)) ==> BootAt(g, Joint(g, s, Io), Idle)
  {
    if BootAt(g, Running(s), s.m.pc) { OnlyDirty(s.m, {}); }
  }

  /** Nobody using any, the buffers in use are the dirty ones. */
  lemma OnlyDirty(m: Machine, dirty: set<int>)
    requires m.held == multiset{}
    requires forall b :: b in dirty <==> b in m.cache && m.cache[b].dirty
    ensures InUse(m) == dirty
  {
    forall b
      ensures b in InUse(m) <==> b in dirty
    {
      assert b !in m.held;
    }
  }

  lemma OpeningRuns(g: Geometry, d0: Disk, s0: State)
    requires Init(g, d0, s0)
    ensures Filled(g, Run(g, s0, Opening()), 0, multiset{}) && DisciplinedRun(g, s0, Opening())
  {
    BootSteps(g, d0, s0);
    var e3 := [Io, Io, Io];
    Snoc(g, s0, e3, Begin(1));
    Snoc(g, s0, e3 + [Begin(1)], Begin(2));
    Snoc(g, s0, e3 + [Begin(1)] + [Begin(2)], Begin(3));
    assert Opening() == e3 + [Begin(1)] + [Begin(2)] + [Begin(3)];
  }

  lemma {:induction false} FillRuns(g: Geometry, d0: Disk, s0: State, j: nat)
    requires Init(g, d0, s0) && j <= Capacity(g)
    requires g.start + g.size + LOGSIZE <= g.nblocks
    ensures Run(g, s0, Fill(g, j)).Running?
    ensures Filled(g, Run(g, s0, Fill(g, j)), j, multiset{}) && DisciplinedRun(g, s0, Fill(g, j))
  {
    hide Run, DisciplinedRun, Joint, Disciplined;
    if j == 0 {
      OpeningRuns(g, d0, s0);
    } else {
      FillRuns(g, d0, s0, j - 1);
      var e := FillEvent(g, j - 1);
      var f := Fill(g, j - 1);
      ReadRuns(g, s0, f, j - 1, e.b);
      Snoc(g, s0, f + [Read(e.b)], e);
      FillStep(g, Run(g, s0, f + [Read(e.b)]).s, j - 1);
      Snoc(g, s0, f + [Read(e.b)] + [e], Release(e.b));
      FillDone(g, Run(g, s0, f + [Read(e.b)] + [e]).s, j, e.b);
    }
  }

  /** With fewer than NBUF blocks logged, any block can be read; a logged one always. */
  lemma ReadRuns(g: Geometry, s0: State, es: seq<Event>, j: nat, b: int)
    requires ValidGeometry(g) && j <= Capacity(g) && 0 <= b < g.nblocks
    requires DisciplinedRun(g, s0, es) && Filled(g, Run(g, s0, es), j, multiset{})
    requires g.start + g.size + LOGSIZE <= g.nblocks && (j < NBUF || b in Run(g, s0, es).s.m.lh)
    ensures Filled(g, Run(g, s0, es + [Read(b)]), j, multiset{b}) && DisciplinedRun(g, s0, es + [Read(b)])
    ensures Run(g, s0, es + [Read(b)]).s.m.lh == Run(g, s0, es).s.m.lh
    ensures Run(g, s0, es + [Read(b)]).s.a == Run(g, s0, es).s.a
  {
    hide Run, Disciplined, DisciplinedRun, CanGet, Capacity;
    var s := Run(g, s0, es).s;
    Snoc(g, s0, es, Read(b));
    ReadIsDisciplined(s.a, b);
    CapacityFits(g);
    FilledGets(g, s, j, b);
  }

  lemma ReadIsDisciplined(a: Spec, b: int)
    ensures Disciplined(a, Read(b)) && Disciplined(a, Release(b))
  {
  }

  lemma CapacityFits(g: Geometry)
    requires ValidGeometry(g)
    ensures Capacity(g) <= LOGSIZE && Capacity(g) < g.size
  {
  }

  lemma FilledGets(g: Geometry, s: State, j: nat, b: int)
    requires Filled(g, Running(s), j, multiset{}) && (j < NBUF || b in s.m.lh)
    ensures CanGet(s.m, b)
  {
    MembersBound(s.m.lh);
    OnlyDirty(s.m, set x | x in s.m.lh);
  }

  lemma FillStep(g: Geometry, s: State, j: nat)
    requires ValidGeometry(g) && j + 1 <= Capacity(g)
    requires g.start + g.size + LOGSIZE <= g.nblocks && Filled(g, Running(s), j, multiset{FillEvent(g, j).b})
    ensures Filled(g, Joint(g, s, FillEvent(g, j)), j + 1, multiset{FillEvent(g, j).b})
    ensures Disciplined(s.a, FillEvent(g, j))
  {
  }

  lemma FillDone(g: Geometry, s: State, j: nat, b: int)
    requires ValidGeometry(g) && j <= Capacity(g) && Filled(g, Running(s), j, multiset{b})
    requires g.start + g.size + LOGSIZE <= g.nblocks
    ensures Filled(g, Joint(g, s, Release(b)), j, multiset{}) && Disciplined(s.a, Release(b))
  {
  }

  /** A log of at most LOGSIZE blocks, header included, lets three well-behaved operations run
      into the panic.  mkfs makes one of exactly LOGSIZE (mkfs.c:25). */
  lemma SmallLogPanics(g: Geometry, d0: Disk, s0: State)
    requires Init(g, d0, s0) && g.size <= LOGSIZE && g.start + g.size + LOGSIZE <= g.nblocks
    ensures var e := FillEvent(g, g.size - 1);
      var es := Fill(g, g.size - 1) + [Read(e.b)];
      BudgetedFreshWrite(g, s0, es, e.k, e.b) && LogWrite(g, Run(g, s0, es).s.m, e.b, e.data).Panic?
  {
    hide Run, DisciplinedRun;
    var n := g.size - 1;
    FillRuns(g, d0, s0, n);
    var e := FillEvent(g, n);
    ReadRuns(g, s0, Fill(g, n), n, e.b);
    var s := Run(g, s0, Fill(g, n) + [Read(e.b)]).s;
    assert 0 <= e.k < 3 && e.b !in s.m.lh;
    assert |s.a.ops[e.k].blocks + {e.b}| <= |s.a.ops[e.k].blocks| + 1;
  }

  /** The budget keeps log_write from panicking on new blocks if and only if the log area holds
      LOGSIZE blocks besides its header. */
  lemma BudgetSufficesIff(g: Geometry, d0: Disk, s0: State)
    requires Init(g, d0, s0) && g.start + g.size + LOGSIZE <= g.nblocks
    ensures LOGSIZE < g.size <==>
      forall es: seq<Event>, k: nat, b: int, data: Block | BudgetedFreshWrite(g, s0, es, k, b) ::
        LogWrite(g, Run(g, s0, es).s.m, b, data).Next?
  {
    if LOGSIZE < g.size {
      forall es: seq<Event>, k: nat, b: int, data: Block | BudgetedFreshWrite(g, s0, es, k, b)
        ensures LogWrite(g, Run(g, s0, es).s.m, b, data).Next?
      {
        BigLogNeverPanics(g, d0, s0, es, k, b, data);
      }
    } else {
      SmallLogPanics(g, d0, s0);
    }
  }

  // ----- blocks that the header already has -----

  /** Whatever the size of the log, three operations within their budgets can fill the header, and
      writing its first block once more, which would be absorbed, then runs into the panic. */
  lemma AbsorbedWritePanics(g: Geometry, d0: Disk, s0: State, data: Block)
    requires Init(g, d0, s0) && 2 <= g.size && g.start + g.size + LOGSIZE <= g.nblocks
    ensures var b := g.start + g.size;
      var es := Fill(g, Capacity(g)) + [Read(b)];
      && BudgetedWrite(g, s0, es, 0, b) && b in Run(g, s0, es).s.m.lh
      && LogWrite(g, Run(g, s0, es).s.m, b, data).Panic?
  {
    hide Run, DisciplinedRun;
    var n, b := Capacity(g), g.start + g.size;
    FillRuns(g, d0, s0, n);
    assert Run(g, s0, Fill(g, n)).s.m.lh[0] == b;
    ReadRuns(g, s0, Fill(g, n), n, b);
    var s := Run(g, s0, Fill(g, n) + [Read(b)]).s;
    assert s.a.ops[0].blocks + {b} == s.a.ops[0].blocks;
  }

  /** So no log size makes the budgets suffice for all writes. */
  lemma BudgetNeverSuffices(g: Geometry, d0: Disk, s0: State)
    requires Init(g, d0, s0) && g.start + g.size + LOGSIZE <= g.nblocks
    ensures exists es, k, b, data :: BudgetedWrite(g, s0, es, k, b) && LogWrite(g, Run(g, s0, es).s.m, b, data).Panic?
  {
    if g.size <= LOGSIZE {
      SmallLogPanics(g, d0, s0);
      var e := FillEvent(g, g.size - 1);
      assert BudgetedWrite(g, s0, Fill(g, g.size - 1) + [Read(e.b)], e.k, e.b);
    } else {
      AbsorbedWritePanics(g, d0, s0, Block([]));
    }
  }

  /** With a log of more than LOGSIZE blocks a write within budget panics if and only if the header
      holds LOGSIZE blocks, and then the block was one of them. */
  lemma BigLogPanicsIffFull(g: Geometry, d0: Disk, s0: State, es: seq<Event>, k: nat, b: int, data: Block)
    requires Init(g, d0, s0) && LOGSIZE < g.size && BudgetedWrite(g, s0, es, k, b)
    ensures var m := Run(g, s0, es).s.m;
      && (LogWrite(g, m, b, data).Panic? <==> |m.lh| == LOGSIZE)
      && (LogWrite(g, m, b, data).Panic? ==> b in m.lh)
  {
    LogWritePanicsIffFull(g, d0, s0, es, b, data);
    if b !in Run(g, s0, es).s.m.lh { BigLogNeverPanics(g, d0, s0, es, k, b, data); }
  }

  // ----- waiting -----

  /** Writes are pending only while the header lists their blocks, and the header is empty when no
      operation is open and no commit runs. */
  ghost predicate Tidy(m: Machine, a: Spec) {
    match m.pc
    case Idle => (m.lh == [] ==> a.pending == []) && (m.outstanding == 0 ==> m.lh == [])
    case Logging(_) => m.lh == [] ==> a.pending == []
    case CommitHead => m.lh == [] ==> a.pending == []
    case _ => a.pending == []
  }

  lemma StepKeepsTidy(g: Geometry, s: State, e: Event, c: Disk, l: Disk)
    requires Core(g, s.m, c, l) && OpsInv(s.m, s.a) && Tidy(s.m, s.a) && Ready(g, s, e) && Step(g, s.m, e).Next?
    ensures Tidy(Step(g, s.m, e).m, SpecStep(s.m, s.a, e))
  {
    hide LogOne, InstallOne, WriteHead, Bread, View, GetHeader, Gets, CanGet;
  }

  lemma {:induction false} RunKeepsTidy(g: Geometry, d0: Disk, s0: State, es: seq<Event>)
    requires Init(g, d0, s0) && Run(g, s0, es).Running?
    ensures Tidy(Run(g, s0, es).s.m, Run(g, s0, es).s.a)
  {
    if es != [] {
      var t := Run(g, s0, es[..|es| - 1]).s;
      RunKeepsTidy(g, d0, s0, es[..|es| - 1]);
      InitInv(g, d0, s0);
      LogSafety.RunKeepsInv(g, d0, s0, es[..|es| - 1]);
      if Step(g, t.m, es[|es| - 1]).Next? {
        StepKeepsTidy(g, t, es[|es| - 1], Apply(d0, t.a.durable), Apply(Apply(d0, t.a.durable), t.a.pending));
      }
    }
  }

  /** begin_op waits only while a commit runs or an operation is open, so somebody will wake it; and
      a log at rest has nothing in its header and nothing pending. */
  lemma WaitingHasReason(g: Geometry, d0: Disk, s0: State, es: seq<Event>)
    requires Init(g, d0, s0) && Run(g, s0, es).Running? && !Booting(Run(g, s0, es).s.m)
    ensures var s := Run(g, s0, es).s;
      && (BeginOp(s.m) == Asleep ==> s.m.committing || s.m.outstanding > 0)
      && (!s.m.committing && s.m.outstanding == 0 ==> s.m.lh == [] && s.a.pending == [])
  {
    hide GetHeader, HeaderOk;
    InitInv(g, d0, s0);
    LogSafety.RunKeepsInv(g, d0, s0, es);
    RunKeepsTidy(g, d0, s0, es);
  }

  /** Whoever sleeps in begin_op could not be admitted now either. */
  ghost predicate SleepersWait(m: Machine) {
    (m.waiters != {} ==> BeginOp(m) == Asleep) && (Booting(m) ==> m.waiters == {})
  }

  lemma StepKeepsSleepers(g: Geometry, s: State, e: Event, c: Disk, l: Disk)
    requires Core(g, s.m, c, l) && OpsInv(s.m, s.a) && SleepersWait(s.m) && Joint(g, s, e).Running?
    ensures SleepersWait(Joint(g, s, e).s.m)
  {
    hide LogOne, InstallOne, WriteHead, Bread, View, GetHeader, Gets, CanGet;
  }

  /** begin_op loses no wakeup: in every state of every run, power failures included, those asleep on
      the log have to wait, for a commit or for an operation that is still open. */
  lemma {:induction false} NoLostLogWakeup(g: Geometry, d0: Disk, s0: State, es: seq<Event>)
    requires Init(g, d0, s0) && Run(g, s0, es).Running?
    ensures SleepersWait(Run(g, s0, es).s.m)
    ensures var m := Run(g, s0, es).s.m; m.waiters != {} ==> m.committing || m.outstanding > 0
  {
    if es != [] {
      var t := Run(g, s0, es[..|es| - 1]).s;
      NoLostLogWakeup(g, d0, s0, es[..|es| - 1]);
      InitInv(g, d0, s0);
      LogSafety.RunKeepsInv(g, d0, s0, es[..|es| - 1]);
      StepKeepsSleepers(g, t, es[|es| - 1], Apply(d0, t.a.durable), Apply(Apply(d0, t.a.durable), t.a.pending));
      if Run(g, s0, es).s.m.waiters != {} { WaitingHasReason(g, d0, s0, es); }
    }
  }
}
