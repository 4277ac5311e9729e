/** The log over a buffer cache of NBUF buffers: when a commit or a recovery runs out of them. */
module LogBuffers {
  import opened LogMachine
  import opened Params
  import opened SetFacts
  import opened LogSafety
  import opened LogBudget

  // ----- which buffers are in use -----

  /** The blocks whose buffers processes use. */
  function Held(m: Machine): set<int> { set b | b in m.held }

  /** The logged blocks that are not yet home; their buffers are dirty. */
  function Unsaved(m: Machine): set<int> {
    match m.pc
    case Idle => set b | b in m.lh
    case Logging(_) => set b | b in m.lh
    case CommitHead => set b | b in m.lh
    case Installing(t, boot) => if boot || t > |m.lh| then {} else set b | b in m.lh[t..]
    case _ => {}
  }

  /** The blocks that the next step of a commit or recovery reads. */
  function Reads(g: Geometry, m: Machine): set<int> {
    match m.pc
    case Logging(t) => if t < |m.lh| then {g.start + t + 1, m.lh[t]} else {}
    case Installing(t, _) => if t < |m.lh| then {g.start + t + 1, m.lh[t]} else {}
    case CommitHead => {g.start}
    case ClearHead(_) => {g.start}
    case ReadHead => {g.start}
    case _ => {}
  }

  lemma InUseIs(g: Geometry, m: Machine, c: Disk, l: Disk)
    requires Core(g, m, c, l)
    ensures InUse(m) == Unsaved(m) + Held(m)
  {
    hide GetHeader, HeaderOk;
    forall b | b in Unsaved(m)
      ensures b in m.cache && m.cache[b].dirty
    {
      if m.pc.Installing? {
        var i :| 0 <= i < |m.lh| - m.pc.tail && m.lh[m.pc.tail..][i] == b;
        assert m.lh[m.pc.tail + i] == b;
      }
    }
    forall b | b in m.cache && m.cache[b].dirty
      ensures b in Unsaved(m)
    {
      assert b in m.lh;
      if m.pc.Installing? {
        var i :| 0 <= i < |m.lh| && m.lh[i] == b;
        assert m.lh[m.pc.tail..][i - m.pc.tail] == b;
      }
    }
  }

  /** Dirty buffers are those of logged blocks, and no block of the log is one. */
  lemma LogBlocksClean(g: Geometry, m: Machine, c: Disk, l: Disk, b: int)
    requires Core(g, m, c, l)
    ensures InLog(g, b) ==> (b in InUse(m) <==> b in m.held)
  {
    hide GetHeader, HeaderOk;
  }

  lemma GetsWhen(m: Machine, a: int, b: int)
    requires |InUse(m)| <= NBUF
    ensures CanGet(m, a) <==> |InUse(m) + {a}| <= NBUF
    ensures CanGetBoth(m, a, b) <==> |InUse(m) + {a, b}| <= NBUF
  {
    hide InUse;
    UseAdds(m, a);
    OneMore(InUse(m), a);
    if |InUse(m) + {a}| <= NBUF { OneMore(InUse(m) + {a}, b); }
    assert InUse(m) + {a} + {b} == InUse(m) + {a, b};
    SubsetBound(InUse(m) + {a}, InUse(m) + {a, b});
  }

  lemma UseAdds(m: Machine, a: int)
    ensures InUse(Use(m, a)) == InUse(m) + {a}
  {
  }

  lemma OneMore(s: set<int>, a: int)
    requires |s| <= NBUF
    ensures a in s || |s| < NBUF <==> |s + {a}| <= NBUF
  {
    if a in s { assert s + {a} == s; }
  }

  /** A step of a commit or recovery panics if and only if the buffers of the logged blocks that are
      not yet home, those that processes use and those it reads are more than there are. */
  lemma StepPanicsIff(g: Geometry, m: Machine, c: Disk, l: Disk)
    requires Core(g, m, c, l) && !m.pc.Idle? && |InUse(m)| <= NBUF
    ensures CommitStep(g, m).Panic? <==> |Unsaved(m) + Held(m) + Reads(g, m)| > NBUF
  {
    hide InUse, CommitNext, Core, CanGet, CanGetBoth, Unsaved, Held, Remaining;
    InUseIs(g, m, c, l);
    CommitProgress(g, m, c, l);
    GetsWhen(m, g.start, g.start);
    assert InUse(m) + {} == InUse(m);
    if (m.pc.Logging? || m.pc.Installing?) && m.pc.tail < |m.lh| {
      GetsWhen(m, g.start + m.pc.tail + 1, m.lh[m.pc.tail]);
    }
  }

  /** Recycling a clean buffer that nobody uses cannot be seen: bread returns the same bytes and finds
      a buffer exactly when it did. */
  lemma EvictUnseen(g: Geometry, m: Machine, b: int, x: int)
    requires |m.disk| == g.nblocks && CacheOk(g, m) && b in m.cache && !m.cache[b].dirty && 0 <= x < |m.disk|
    ensures var m' := m.(cache := m.cache - {b}); View(m', x) == View(m, x) && (CanGet(m', x) <==> CanGet(m, x))
  {
    assert InUse(m.(cache := m.cache - {b})) == InUse(m);
  }

  // ----- never more than there are -----

  lemma ReadUse(m: Machine, b: int)
    requires 0 <= b < |m.disk| && CanGet(m, b) && |InUse(m)| <= NBUF
    ensures |InUse(Use(Bread(m, b), b))| <= NBUF
  {
    hide InUse, Bread;
    BreadPinsNothing(m, b);
    UseAdds(Bread(m, b), b);
    OneMore(InUse(m), b);
  }

  lemma BreadPinsNothing(m: Machine, b: int)
    requires 0 <= b < |m.disk|
    ensures InUse(Bread(m, b)) == InUse(m)
  {
  }

  lemma WriteUse(g: Geometry, m: Machine, b: int, data: Block)
    requires b in m.held && LogWrite(g, m, b, data).Next?
    ensures InUse(LogWrite(g, m, b, data).m) == InUse(m)
  {
  }

  lemma LessUse(m: Machine, n: Machine)
    requires forall b | b in n.cache && n.cache[b].dirty :: b in m.cache && m.cache[b].dirty
    requires n.held <= m.held
    ensures InUse(n) <= InUse(m) && |InUse(n)| <= |InUse(m)|
  {
    forall b | b in InUse(n)
      ensures b in InUse(m)
    {
      if b in n.held { assert n.held[b] <= m.held[b]; }
    }
    SubsetBound(InUse(n), InUse(m));
  }

  /** A step of commit or recovery pins no buffer. */
  lemma IoUse(g: Geometry, m: Machine)
    requires ValidGeometry(g) && |m.disk| == g.nblocks && SafeLh(g, m)
    ensures InUse(CommitNext(g, m)) <= InUse(m) && |InUse(CommitNext(g, m))| <= |InUse(m)|
  {
    hide InUse, PutHeader, GetHeader;
    LessUse(m, CommitNext(g, m));
  }

  lemma StepKeepsBuffers(g: Geometry, s: State, e: Event)
    requires Joint(g, s, e).Running? && |InUse(s.m)| <= NBUF
    ensures |InUse(Joint(g, s, e).s.m)| <= NBUF
  {
    hide InUse, CommitNext, Bread;
    var m := Joint(g, s, e).s.m;
    match e {
      case Read(b) => ReadUse(s.m, b);
      case Write(k, b, data) => WriteUse(g, s.m, b, data);
      case Io => IoUse(g, s.m);
      case _ => LessUse(s.m, m);
    }
  }

  lemma {:induction false} RunKeepsBuffers(g: Geometry, d0: Disk, s0: State, es: seq<Event>)
    requires Init(g, d0, s0) && Run(g, s0, es).Running?
    ensures |InUse(Run(g, s0, es).s.m)| <= NBUF
  {
    if es == [] {
      assert InUse(s0.m) == {};
    } else {
      RunKeepsBuffers(g, d0, s0, es[..|es| - 1]);
      StepKeepsBuffers(g, Run(g, s0, es[..|es| - 1]).s, es[|es| - 1]);
    }
  }

  // ----- a commit that nobody disturbs -----

  function Ios(k: nat): seq<Event> { seq(k, _ => Io) }

  lemma IosFirst(g: Geometry, s: State, k: nat)
    requires Joint(g, s, Io).Running?
    ensures Run(g, s, Ios(k + 1)) == Run(g, Joint(g, s, Io).s, Ios(k))
  {
    hide Joint;
    assert Ios(1) == [Io] && [Io] + Ios(k) == Ios(k + 1);
    assert Run(g, s, [Io]) == Joint(g, s, Io) by { assert Run(g, s, []) == Running(s); }
    RunConcat(g, s, [Io], Ios(k));
  }

  lemma IosLast(g: Geometry, s: State, k: nat)
    ensures Run(g, s, Ios(k + 1)) == match Run(g, s, Ios(k)) case Stopped => Stopped case Running(t) => Joint(g, t, Io)
  {
    hide Joint;
    assert Ios(k + 1)[..k] == Ios(k);
  }

  /** Run alone from s, the committing or recovering process gets to its end. */
  ghost predicate Finishes(g: Geometry, s: State) {
    exists k :: Run(g, s, Ios(k)).Running? && Run(g, s, Ios(k)).s.m.pc.Idle?
  }

  lemma FinishesAfter(g: Geometry, s: State)
    requires Joint(g, s, Io).Running? && Finishes(g, Joint(g, s, Io).s)
    ensures Finishes(g, s)
  {
    var k :| Run(g, Joint(g, s, Io).s, Ios(k)).Running? && Run(g, Joint(g, s, Io).s, Ios(k)).s.m.pc.Idle?;
    IosFirst(g, s, k);
  }

  /** Every block of the log area that a commit reads has a buffer in use or can get one. */
  ghost predicate Roomy(g: Geometry, m: Machine) { forall b | g.start <= b <= g.start + |m.lh| :: CanGet(m, b) }

  /** What a caller of end_op can check: fewer logged blocks and used buffers than buffers. */
  lemma RoomyIf(g: Geometry, m: Machine, c: Disk, l: Disk)
    requires Core(g, m, c, l) && |m.lh| + |Held(m)| < NBUF
    ensures |InUse(m)| < NBUF && Roomy(g, m)
  {
    hide InUse, Core;
    InUseIs(g, m, c, l);
    UnsavedBound(m);
    UnionBound(Unsaved(m), Held(m));
  }

  lemma UnsavedBound(m: Machine)
    ensures |Unsaved(m)| <= |m.lh|
  {
    MembersBound(m.lh);
    if m.pc.Installing? && m.pc.tail <= |m.lh| { MembersBound(m.lh[m.pc.tail..]); }
  }

  lemma StillGets(g: Geometry, m: Machine, n: Machine, c: Disk, l: Disk, b: int)
    requires Core(g, m, c, l) && InLog(g, b) && CanGet(m, b)
    requires n.held == m.held && InUse(n) <= InUse(m) && |InUse(n)| <= |InUse(m)|
    ensures CanGet(n, b)
  {
    hide Core;
    LogBlocksClean(g, m, c, l, b);
  }

  /** With room, the commit takes its next step and keeps room. */
  lemma RoomyStep(g: Geometry, m: Machine, c: Disk, l: Disk)
    requires Core(g, m, c, l) && m.committing && !m.pc.Idle? && Roomy(g, m)
    ensures CommitStep(g, m).Next? && Roomy(g, CommitNext(g, m))
  {
    hide InUse, CommitNext, CanGet;
    var n := CommitNext(g, m);
    RoomyGets(g, m, c, l);
    IoUse(g, m);
    SameList(g, m, c, l);
    forall b | g.start <= b <= g.start + |n.lh|
      ensures CanGet(n, b)
    {
      StillGets(g, m, n, c, l, b);
    }
  }

  lemma SameList(g: Geometry, m: Machine, c: Disk, l: Disk)
    requires Core(g, m, c, l) && m.committing && !m.pc.Idle?
    ensures CommitNext(g, m).lh == m.lh || CommitNext(g, m).lh == []
    ensures CommitNext(g, m).committing || CommitNext(g, m).pc.Idle?
    ensures |m.lh| < g.size
  {
    hide LogOne, InstallOne, WriteHead, GetHeader, HeaderOk;
  }

  lemma RoomyGets(g: Geometry, m: Machine, c: Disk, l: Disk)
    requires Core(g, m, c, l) && m.committing && !m.pc.Idle? && Roomy(g, m)
    ensures Gets(g, m)
  {
    hide GetHeader, HeaderOk, CanGet;
    assert CanGet(m, g.start);
    if (m.pc.Logging? || m.pc.Installing?) && m.pc.tail < |m.lh| {
      assert CanGet(m, g.start + m.pc.tail + 1);
      DirtyStays(m, g.start + m.pc.tail + 1, m.lh[m.pc.tail]);
    }
  }

  lemma DirtyStays(m: Machine, a: int, b: int)
    requires b in m.cache && m.cache[b].dirty
    ensures CanGet(Use(m, a), b)
  {
  }

  lemma {:induction false} RoomyFinishes(g: Geometry, d0: Disk, s: State)
    requires Inv(g, d0, s) && s.m.committing && Roomy(g, s.m)
    ensures Finishes(g, s)
    decreases Remaining(s.m)
  {
    hide Inv, Roomy, Remaining, CommitNext, Gets;
    if s.m.pc.Idle? {
      IdleIsOver(g, d0, s);
    } else {
      IoNext(g, d0, s);
      RoomyStep(g, s.m, Apply(d0, s.a.durable), Apply(Apply(d0, s.a.durable), s.a.pending));
      var t := Joint(g, s, Io).s;
      if t.m.pc.Idle? {
        assert Run(g, t, Ios(0)) == Running(t);
      } else {
        RoomyFinishes(g, d0, t);
      }
      FinishesAfter(g, s);
    }
  }

  lemma IdleIsOver(g: Geometry, d0: Disk, s: State)
    requires Inv(g, d0, s) && s.m.pc.Idle?
    ensures Finishes(g, s)
  {
    hide Inv;
    assert Run(g, s, Ios(0)) == Running(s);
  }

  /** What one step of the committing process does to the joint state. */
  lemma IoNext(g: Geometry, d0: Disk, s: State)
    requires Inv(g, d0, s) && !s.m.pc.Idle?
    ensures var c := Apply(d0, s.a.durable);
      && Core(g, s.m, c, Apply(c, s.a.pending))
      && (CommitStep(g, s.m).Next? <==> Joint(g, s, Io).Running?)
      && (s.m.committing ==> CommitNext(g, s.m).committing || CommitNext(g, s.m).pc.Idle?)
      && 0 <= Remaining(CommitNext(g, s.m)) < Remaining(s.m)
    ensures CommitStep(g, s.m).Next? ==>
      Joint(g, s, Io).s.m == CommitNext(g, s.m) && Inv(g, d0, Joint(g, s, Io).s)
  {
    hide CommitNext, Gets, Remaining, Core;
    var c := Apply(d0, s.a.durable);
    var l := Apply(c, s.a.pending);
    assert Core(g, s.m, c, l);
    CoreIsReady(g, s.m, c, l);
    CommitProgress(g, s.m, c, l);
    if s.m.committing { SameList(g, s.m, c, l); }
    if CommitStep(g, s.m).Next? { StepKeepsInv(g, d0, s, Io); }
  }

  lemma CoreIsReady(g: Geometry, m: Machine, c: Disk, l: Disk)
    requires Core(g, m, c, l)
    ensures ValidGeometry(g) && |m.disk| == g.nblocks && SafeLh(g, m)
  {
  }

  /** Block b of the log area is one that write_log has yet to reach, or the header. */
  ghost predicate Ahead(g: Geometry, m: Machine, b: int) {
    b == g.start || (m.pc.Logging? && g.start + m.pc.tail < b <= g.start + |m.lh|)
  }

  /** The commit is before its commit point, all buffers are in use, and a block of the log area that
      it has yet to read has none. */
  ghost predicate Blocked(g: Geometry, m: Machine) {
    && m.committing && |InUse(m)| >= NBUF && (m.pc.Logging? || m.pc.CommitHead?)
    && exists b :: b !in InUse(m) && Ahead(g, m, b)
  }

  lemma BlockedStep(g: Geometry, m: Machine, c: Disk, l: Disk)
    requires Core(g, m, c, l) && Blocked(g, m) && CommitStep(g, m).Next?
    ensures Blocked(g, CommitNext(g, m))
  {
    hide InUse, Core, CommitNext;
    if m.pc.Logging? { LoggingUse(g, m, c, l); }
    var b :| b !in InUse(m) && Ahead(g, m, b);
    assert !CanGet(m, b);
    assert m.pc.Logging? ==> Ahead(g, CommitNext(g, m), b);
  }

  /** Writing the log frees no buffer. */
  lemma LoggingUse(g: Geometry, m: Machine, c: Disk, l: Disk)
    requires Core(g, m, c, l) && m.pc.Logging?
    ensures ValidGeometry(g) && |m.disk| == g.nblocks && SafeLh(g, m)
    ensures InUse(CommitNext(g, m)) == InUse(m) && CommitNext(g, m).lh == m.lh
    ensures CommitNext(g, m).committing == m.committing
    ensures CommitNext(g, m).pc == if m.pc.tail < |m.lh| then Logging(m.pc.tail + 1) else CommitHead
  {
    hide GetHeader, HeaderOk;
    if m.pc.tail < |m.lh| { assert InLog(g, g.start + m.pc.tail + 1); }
  }

  lemma {:induction false} BlockedRun(g: Geometry, d0: Disk, s: State, k: nat)
    requires Inv(g, d0, s) && Blocked(g, s.m) && Run(g, s, Ios(k)).Running?
    ensures Inv(g, d0, Run(g, s, Ios(k)).s) && Blocked(g, Run(g, s, Ios(k)).s.m)
  {
    hide Inv, Blocked, CommitNext, Gets;
    if k == 0 {
      assert Run(g, s, Ios(0)) == Running(s);
    } else {
      IosLast(g, s, k - 1);
      BlockedRun(g, d0, s, k - 1);
      var t := Run(g, s, Ios(k - 1)).s;
      BlockedIsBusy(g, t.m);
      IoNext(g, d0, t);
      BlockedStep(g, t.m, Apply(d0, t.a.durable), Apply(Apply(d0, t.a.durable), t.a.pending));
    }
  }

  lemma BlockedIsBusy(g: Geometry, m: Machine)
    requires Blocked(g, m)
    ensures !m.pc.Idle?
  {
  }

  /** Nobody else stepping, the commit that the last end_op starts runs to its end if and only if, as
      end_op is called, every block of the log area that it reads has a buffer in use or can get one. */
  lemma CommitFinishesIff(g: Geometry, d0: Disk, s: State)
    requires Inv(g, d0, s) && !Booting(s.m) && !s.m.committing && s.m.outstanding == 1
    ensures Joint(g, s, End(0)).Running? && Joint(g, s, End(0)).s.m.committing
    ensures Finishes(g, Joint(g, s, End(0)).s) <==> s.m.lh == [] || Roomy(g, s.m)
  {
    hide InUse, GetHeader, HeaderOk;
    LastEnd(g, d0, s);
    var t := Joint(g, s, End(0)).s;
    SameUse(s.m, t.m);
    if s.m.lh == [] {
      ClosingFinishes(g, d0, t);
    } else if Roomy(g, s.m) {
      RoomyFinishes(g, d0, t);
    } else {
      var b :| g.start <= b <= g.start + |s.m.lh| && !CanGet(s.m, b);
      assert b !in InUse(t.m) && Ahead(g, t.m, b);
      assert Blocked(g, t.m);
      NeverFinishes(g, d0, t);
    }
  }

  lemma NeverFinishes(g: Geometry, d0: Disk, s: State)
    requires Inv(g, d0, s) && Blocked(g, s.m)
    ensures !Finishes(g, s)
  {
    hide Inv, Blocked;
    forall k | Run(g, s, Ios(k)).Running?
      ensures !Run(g, s, Ios(k)).s.m.pc.Idle?
    {
      BlockedRun(g, d0, s, k);
      BlockedIsBusy(g, Run(g, s, Ios(k)).s.m);
    }
  }

  lemma LastEnd(g: Geometry, d0: Disk, s: State)
    requires Inv(g, d0, s) && !Booting(s.m) && !s.m.committing && s.m.outstanding == 1
    ensures Joint(g, s, End(0)).Running? && Inv(g, d0, Joint(g, s, End(0)).s)
    ensures var m := Joint(g, s, End(0)).s.m;
      && m.committing && m.lh == s.m.lh && m.cache == s.m.cache && m.held == s.m.held
      && m.pc == if m.lh == [] then Closing else Logging(0)
  {
    hide GetHeader, HeaderOk;
    StepKeepsInv(g, d0, s, End(0));
  }

  lemma SameUse(m: Machine, n: Machine)
    requires n.cache == m.cache && n.held == m.held
    ensures InUse(n) == InUse(m) && forall b :: CanGet(n, b) <==> CanGet(m, b)
  {
  }

  lemma ClosingFinishes(g: Geometry, d0: Disk, s: State)
    requires Inv(g, d0, s) && s.m.pc.Closing?
    ensures Finishes(g, s)
  {
    hide GetHeader, HeaderOk;
    var t := Joint(g, s, Io).s;
    assert t.m.pc.Idle?;
    assert Run(g, t, Ios(0)) == Running(t);
    FinishesAfter(g, s);
  }

  /** Among others: while the logged blocks and the buffers that others use are fewer than NBUF, a
      commit's next step is no panic, and what others do brings no commit further from its end. */
  lemma CommitAmongOthers(g: Geometry, d0: Disk, s: State, e: Event)
    requires Inv(g, d0, s) && s.m.committing && Joint(g, s, e).Running? && !e.Io? && !e.Crash?
    ensures Remaining(Joint(g, s, e).s.m) == Remaining(s.m)
    ensures |s.m.lh| + |Held(s.m)| < NBUF ==> CommitStep(g, s.m).Next?
  {
    hide InUse, CommitNext, GetHeader, HeaderOk, Roomy, Gets;
    var c := Apply(d0, s.a.durable);
    if |s.m.lh| + |Held(s.m)| < NBUF {
      RoomyIf(g, s.m, c, Apply(c, s.a.pending));
      RoomyStep(g, s.m, c, Apply(c, s.a.pending));
    }
  }

  // ----- a recovery that nobody disturbs -----

  /** The blocks that recovery has to install, from the first one not yet installed. */
  function BootList(g: Geometry, m: Machine): seq<int> {
    if m.pc.ReadHead? && g.start < |m.disk| then GetHeader(m.disk[g.start]) else m.lh
  }

  function BootTail(m: Machine): nat { if m.pc.Installing? then m.pc.tail else 0 }

  /** The header, and each log block together with its destination, can have their buffers. */
  ghost predicate BootRoom(g: Geometry, m: Machine) {
    && CanGet(m, g.start)
    && forall i | BootTail(m) <= i < |BootList(g, m)| :: CanGetBoth(m, g.start + i + 1, BootList(g, m)[i])
  }

  /** Recovery pins nothing: whoever can get a buffer before a step can get it after. */
  lemma BootUse(g: Geometry, m: Machine, c: Disk, l: Disk)
    requires Core(g, m, c, l) && Booting(m)
    ensures ValidGeometry(g) && |m.disk| == g.nblocks && SafeLh(g, m)
    ensures InUse(CommitNext(g, m)) == InUse(m) && CommitNext(g, m).held == m.held
  {
    hide InUse, CommitNext;
    CoreIsReady(g, m, c, l);
    OnlyHeld(g, m, c, l);
    IoKeepsBoot(g, m, c, l);
    OnlyHeld(g, CommitNext(g, m), c, l);
  }

  lemma OnlyHeld(g: Geometry, m: Machine, c: Disk, l: Disk)
    requires Core(g, m, c, l) && (Booting(m) || (m.pc.Idle? && m.lh == []))
    ensures InUse(m) == Held(m)
  {
    hide InUse, Core;
    InUseIs(g, m, c, l);
  }

  lemma IoKeepsBoot(g: Geometry, m: Machine, c: Disk, l: Disk)
    requires Core(g, m, c, l) && Booting(m)
    ensures ValidGeometry(g) && |m.disk| == g.nblocks && SafeLh(g, m) && Core(g, CommitNext(g, m), c, l)
    ensures Booting(CommitNext(g, m)) || (CommitNext(g, m).pc.Idle? && CommitNext(g, m).lh == [])
  {
    hide Core, LogOne, InstallOne, WriteHead, GetHeader, View, Bread, Gets;
    CoreIsReady(g, m, c, l);
    match m.pc {
      case Installing(_, _) => InstallingKeeps(g, m, c, l);
      case ClearHead(_) =>
        ClearHeadKeeps(g, m, c, l);
        ClearHeadEmpty(g, m, c, l);
      case ReadHead => ReadHeadKeeps(g, m, c, l);
      case _ =>
    }
  }

  lemma ClearHeadEmpty(g: Geometry, m: Machine, c: Disk, l: Disk)
    requires Core(g, m, c, l) && m.pc.ClearHead?
    ensures m.lh == []
  {
  }

  lemma SameGets(m: Machine, n: Machine)
    requires InUse(n) == InUse(m) && n.held == m.held
    ensures forall b :: CanGet(n, b) <==> CanGet(m, b)
    ensures forall a, b :: CanGetBoth(n, a, b) <==> CanGetBoth(m, a, b)
  {
    hide InUse;
    forall a, b
      ensures CanGetBoth(n, a, b) <==> CanGetBoth(m, a, b)
    {
      UseAdds(m, a);
      UseAdds(n, a);
    }
  }

  lemma BootListNext(g: Geometry, m: Machine, c: Disk, l: Disk)
    requires Core(g, m, c, l) && Booting(m)
    ensures ValidGeometry(g) && |m.disk| == g.nblocks && SafeLh(g, m)
    ensures var n := CommitNext(g, m);
      if m.pc.Installing? && m.pc.tail < |m.lh| then BootList(g, n) == m.lh && n.pc == Installing(m.pc.tail + 1, true)
      else if m.pc.ReadHead? then BootList(g, n) == BootList(g, m) && n.pc == Installing(0, true)
      else BootList(g, n) == [] && n.pc == if m.pc.Installing? then ClearHead(true) else Idle
  {
    hide GetHeader, HeaderOk;
  }

  lemma BootRoomStep(g: Geometry, m: Machine, c: Disk, l: Disk)
    requires Core(g, m, c, l) && Booting(m)
    ensures ValidGeometry(g) && |m.disk| == g.nblocks && SafeLh(g, m)
    ensures BootRoom(g, m) ==> Gets(g, m) && BootRoom(g, CommitNext(g, m))
    ensures !BootRoom(g, m) && Gets(g, m) ==> !BootRoom(g, CommitNext(g, m)) && Booting(CommitNext(g, m))
  {
    hide Core, InUse, CommitNext, CanGet, CanGetBoth, GetHeader;
    BootUse(g, m, c, l);
    SameGets(m, CommitNext(g, m));
    BootListNext(g, m, c, l);
    TailInList(g, m, c, l);
    var n := CommitNext(g, m);
    if m.pc.Installing? && m.pc.tail < |m.lh| { assert BootList(g, m)[m.pc.tail] == m.lh[m.pc.tail]; }
    if BootRoom(g, m) {
      forall i | BootTail(n) <= i < |BootList(g, n)|
        ensures CanGetBoth(n, g.start + i + 1, BootList(g, n)[i])
      {
        assert BootList(g, n)[i] == BootList(g, m)[i];
      }
    }
  }

  lemma TailInList(g: Geometry, m: Machine, c: Disk, l: Disk)
    requires Core(g, m, c, l) && Booting(m)
    ensures m.pc.Installing? ==> m.pc.tail <= |m.lh|
    ensures m.pc.ClearHead? ==> m.lh == []
  {
  }

  lemma {:induction false} BootFinishes(g: Geometry, d0: Disk, s: State)
    requires Inv(g, d0, s) && Booting(s.m) && BootRoom(g, s.m)
    ensures Finishes(g, s)
    decreases Remaining(s.m)
  {
    hide Inv, BootRoom, Remaining, CommitNext, Gets;
    IoNext(g, d0, s);
    var c := Apply(d0, s.a.durable);
    BootRoomStep(g, s.m, c, Apply(c, s.a.pending));
    IoKeepsBoot(g, s.m, c, Apply(c, s.a.pending));
    var t := Joint(g, s, Io).s;
    if t.m.pc.Idle? {
      assert Run(g, t, Ios(0)) == Running(t);
    } else {
      BootFinishes(g, d0, t);
    }
    FinishesAfter(g, s);
  }

  lemma {:induction false} BootBlockedRun(g: Geometry, d0: Disk, s: State, k: nat)
    requires Inv(g, d0, s) && Booting(s.m) && !BootRoom(g, s.m) && Run(g, s, Ios(k)).Running?
    ensures var t := Run(g, s, Ios(k)).s; Inv(g, d0, t) && Booting(t.m) && !BootRoom(g, t.m)
  {
    hide Inv, BootRoom, CommitNext, Gets;
    if k == 0 {
      assert Run(g, s, Ios(0)) == Running(s);
    } else {
      IosLast(g, s, k - 1);
      BootBlockedRun(g, d0, s, k - 1);
      var t := Run(g, s, Ios(k - 1)).s;
      IoNext(g, d0, t);
      BootRoomStep(g, t.m, Apply(d0, t.a.durable), Apply(Apply(d0, t.a.durable), t.a.pending));
    }
  }

  /** Nobody else stepping, a recovery runs to its end if and only if the header, and each log block
      together with its destination, can have their buffers; two buffers that nobody uses suffice. */
  lemma RecoveryFinishesIff(g: Geometry, d0: Disk, s: State)
    requires Inv(g, d0, s) && s.m.pc.ReadHead?
    ensures Finishes(g, s) <==> BootRoom(g, s.m)
    ensures |Held(s.m)| + 2 <= NBUF ==> BootRoom(g, s.m)
  {
    hide Inv, BootRoom;
    if BootRoom(g, s.m) { BootFinishes(g, d0, s); }
    forall k | Run(g, s, Ios(k)).Running? && !BootRoom(g, s.m)
      ensures !Run(g, s, Ios(k)).s.m.pc.Idle?
    {
      BootBlockedRun(g, d0, s, k);
    }
    IoNext(g, d0, s);
    var c := Apply(d0, s.a.durable);
    OnlyHeld(g, s.m, c, Apply(c, s.a.pending));
    if |Held(s.m)| + 2 <= NBUF { TwoSuffice(g, s.m); }
  }

  lemma TwoSuffice(g: Geometry, m: Machine)
    requires |InUse(m)| + 2 <= NBUF
    ensures BootRoom(g, m)
  {
    hide InUse;
    forall a, b
      ensures CanGetBoth(m, a, b)
    {
      UseAdds(m, a);
    }
  }

  // ----- two commits that run out of buffers -----

  function Ends(): seq<Event> { [End(0), End(0), End(0)] }

  /** The open operations end, and the last one starts the commit. */
  ghost predicate Ended(g: Geometry, r: MaybeState, m: Machine, open: nat) {
    && r.Running? && r.s.m.lh == m.lh && r.s.m.cache == m.cache && r.s.m.held == m.held
    && r.s.m.disk == m.disk && r.s.m.outstanding == open == |r.s.a.ops| && !Booting(r.s.m)
    && if open > 0 then !r.s.m.committing else r.s.m.committing && r.s.m.pc == Logging(0)
  }

  lemma EndStep(g: Geometry, s: State, m: Machine, open: nat)
    requires ValidGeometry(g) && Ended(g, Running(s), m, open + 1) && m.lh != []
    requires |m.disk| == g.nblocks && SafeLh(g, m)
    ensures Ended(g, Joint(g, s, End(0)), m, open) && Disciplined(s.a, End(0))
  {
  }

  lemma EndsRun(g: Geometry, s0: State, es: seq<Event>, j: nat, held: multiset<int>)
    requires ValidGeometry(g) && 0 < j <= Capacity(g) && g.start + g.size + LOGSIZE <= g.nblocks
    requires DisciplinedRun(g, s0, es) && Filled(g, Run(g, s0, es), j, held)
    ensures DisciplinedRun(g, s0, es + Ends()) && Ended(g, Run(g, s0, es + Ends()), Run(g, s0, es).s.m, 0)
  {
    hide Run, Joint, Disciplined, DisciplinedRun;
    var m := Run(g, s0, es).s.m;
    var e1, e2 := es + [End(0)], es + [End(0)] + [End(0)];
    Snoc(g, s0, es, End(0));
    EndStep(g, Run(g, s0, es).s, m, 2);
    Snoc(g, s0, e1, End(0));
    EndStep(g, Run(g, s0, e1).s, m, 1);
    Snoc(g, s0, e2, End(0));
    EndStep(g, Run(g, s0, e2).s, m, 0);
    assert es + Ends() == e2 + [End(0)];
  }

  /** The last end_op has been called, and the commit panics at its first bread. */
  ghost predicate CommitPanics(g: Geometry, s0: State, es: seq<Event>) {
    && DisciplinedRun(g, s0, es) && Run(g, s0, es).Running?
    && Ready(g, Run(g, s0, es).s, Io) && Run(g, s0, es).s.m.pc == Logging(0)
    && CommitStep(g, Run(g, s0, es).s.m).Panic?
  }

  /** It does when the logged blocks and the buffers in use by others are as many as there are. */
  lemma NoBufferLeft(g: Geometry, m: Machine, c: Disk, l: Disk)
    requires Core(g, m, c, l) && m.pc == Logging(0) && m.lh != []
    requires |m.lh| + |Held(m)| >= NBUF && g.start + 1 !in m.held
    requires forall b | b in m.held :: b !in m.lh
    ensures CommitStep(g, m).Panic?
  {
    hide InUse, GetHeader, HeaderOk;
    InUseIs(g, m, c, l);
    LogBlocksClean(g, m, c, l, g.start + 1);
    MembersBound(m.lh);
    assert Unsaved(m) !! Held(m);
    assert InLog(g, g.start + 1);
    assert !CanGet(m, g.start + 1);
  }

  lemma FilledPanics(g: Geometry, d0: Disk, s0: State, es: seq<Event>, j: nat, held: multiset<int>)
    requires Init(g, d0, s0) && 0 < j <= Capacity(g) && g.start + g.size + LOGSIZE <= g.nblocks
    requires DisciplinedRun(g, s0, es) && Filled(g, Run(g, s0, es), j, held)
    requires j + |Held(Run(g, s0, es).s.m)| >= NBUF && g.start + 1 !in held
    requires forall b | b in held :: b !in Run(g, s0, es).s.m.lh
    ensures CommitPanics(g, s0, es + Ends()) && Run(g, s0, es + Ends()).s.m.held == held
  {
    hide Run, Joint, DisciplinedRun, InUse, CommitStep, Core;
    EndsRun(g, s0, es, j, held);
    InitInv(g, d0, s0);
    RunKeepsInv(g, d0, s0, es + Ends());
    var s := Run(g, s0, es + Ends()).s;
    var c := Apply(d0, s.a.durable);
    CoreIsReady(g, s.m, c, Apply(c, s.a.pending));
    NoBufferLeft(g, s.m, c, Apply(c, s.a.pending));
  }

  /** With a log area of more than LOGSIZE blocks three operations within their budgets can log
      LOGSIZE blocks; then every buffer is dirty, and the commit panics before it writes anything. */
  lemma FullLogPanics(g: Geometry, d0: Disk, s0: State)
    requires Init(g, d0, s0) && LOGSIZE < g.size && g.start + g.size + LOGSIZE <= g.nblocks
    ensures var es := Fill(g, LOGSIZE) + Ends(); CommitPanics(g, s0, es) && Run(g, s0, es).s.m.held == multiset{}
  {
    hide Run, DisciplinedRun;
    FillRuns(g, d0, s0, LOGSIZE);
    FilledPanics(g, d0, s0, Fill(g, LOGSIZE), LOGSIZE, multiset{});
  }

  /** With the LOGSIZE blocks that mkfs gives the log area, one less can be logged, and then a single
      process that is reading a block that was not logged takes the last buffer. */
  lemma MkfsLogPanics(g: Geometry, d0: Disk, s0: State)
    requires Init(g, d0, s0) && g.size == LOGSIZE && g.start + g.size + LOGSIZE <= g.nblocks
    ensures var x := g.start + g.size + LOGSIZE - 1;
      var es := Fill(g, LOGSIZE - 1) + [Read(x)] + Ends();
      CommitPanics(g, s0, es) && Run(g, s0, es).s.m.held == multiset{x}
  {
    hide Run, DisciplinedRun;
    var x := g.start + g.size + LOGSIZE - 1;
    FillRuns(g, d0, s0, LOGSIZE - 1);
    ReadRuns(g, s0, Fill(g, LOGSIZE - 1), LOGSIZE - 1, x);
    var es := Fill(g, LOGSIZE - 1) + [Read(x)];
    assert Held(Run(g, s0, es).s.m) == {x};
    FilledPanics(g, d0, s0, es, LOGSIZE - 1, multiset{x});
  }
}
