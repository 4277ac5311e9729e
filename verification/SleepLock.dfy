/** One sleeplock (sleeplock.c) used by any number of processes, with every acquire, release,
    sleep and wakeup of its inner spinlock and of ptable.lock (proc.c) as a step of its own. */
module SleepLock {

  /** Where a process is.  Comments name what it holds: I the inner lock, T ptable.lock. */
  datatype Pc =
    | Out                // not using the lock
    | WantInner          // acquiresleep: acquire(&lk->lk), also after waking
    | Testing            // I   while (lk->locked)
    | Sleeping0          // I   sleep: acquire(&ptable.lock)
    | Sleeping1          // IT  release(lk)
    | Sleeping2          // T   p->state = SLEEPING; sched()
    | Switching          // T   in the scheduler, about to release ptable.lock
    | Asleep             //     state SLEEPING, chan == lk
    | Woken              //     state RUNNABLE, still inside sleep
    | Resumed            // T   chosen by the scheduler, back in sleep
    | Taken              // I   locked set, about to release lk->lk
    | Holding            //     the sleeplock is held
    | Rel0               //     releasesleep: acquire(&lk->lk)
    | Rel1               // I   lk->locked = 0
    | Rel2               // I   wakeup: acquire(&ptable.lock)
    | Rel3               // IT  wakeup1
    | Rel4               // IT  release(&ptable.lock)
    | Rel5               // I   release(&lk->lk)

  predicate HasInner(pc: Pc) {
    pc.Testing? || pc.Sleeping0? || pc.Sleeping1? || pc.Taken? || pc.Rel1? || pc.Rel2? || pc.Rel3? || pc.Rel4?
      || pc.Rel5?
  }

  predicate HasTable(pc: Pc) {
    pc.Sleeping1? || pc.Sleeping2? || pc.Switching? || pc.Resumed? || pc.Rel3? || pc.Rel4?
  }

  /** From setting lk->locked to clearing it. */
  predicate HasSleeplock(pc: Pc) { pc.Taken? || pc.Holding? || pc.Rel0? || pc.Rel1? }

  /** The wakeup of this releaser is still to come. */
  predicate WillWake(pc: Pc) { pc.Rel2? || pc.Rel3? }

  /** Committed to sleeping, or asleep: state SLEEPING is set in Switching. */
  predicate Waiting(pc: Pc) { pc.Sleeping2? || pc.Switching? || pc.Asleep? }

  /** inner and table are the spinlock holders, -1 for none; owner is lk->pid's process. */
  datatype State = State(pc: seq<Pc>, inner: int, table: int, locked: bool, owner: int)

  /** wakeup1: every process sleeping on this lock becomes runnable. */
  function WakeAll(pc: seq<Pc>): (r: seq<Pc>)
    ensures |r| == |pc|
    ensures forall i | 0 <= i < |pc| :: r[i] == if pc[i].Asleep? then Woken else pc[i]
  {
    seq(|pc|, i requires 0 <= i < |pc| => if pc[i].Asleep? then Woken else pc[i])
  }

  function Go(s: State, p: int, pc: Pc): State
    requires 0 <= p < |s.pc|
  {
    s.(pc := s.pc[p := pc])
  }

  datatype Result = Moved(s: State) | Blocked

  /** The next step of process p.  `want` decides for a process that is free to choose. */
  function Step(s: State, p: int): Result
    requires 0 <= p < |s.pc|
  {
    match s.pc[p]
    case Out => Moved(Go(s, p, WantInner))
    case WantInner => if s.inner == -1 then Moved(Go(s, p, Testing).(inner := p)) else Blocked
    case Testing =>
      if s.locked then Moved(Go(s, p, Sleeping0)) else Moved(Go(s, p, Taken).(locked := true, owner := p))
    case Sleeping0 => if s.table == -1 then Moved(Go(s, p, Sleeping1).(table := p)) else Blocked
    case Sleeping1 => Moved(Go(s, p, Sleeping2).(inner := -1))
    case Sleeping2 => Moved(Go(s, p, Switching))
    case Switching => Moved(Go(s, p, Asleep).(table := -1))
    case Asleep => Blocked
    case Woken => if s.table == -1 then Moved(Go(s, p, Resumed).(table := p)) else Blocked
    case Resumed => Moved(Go(s, p, WantInner).(table := -1))
    case Taken => Moved(Go(s, p, Holding).(inner := -1))
    case Holding => Moved(Go(s, p, Rel0))
    case Rel0 => if s.inner == -1 then Moved(Go(s, p, Rel1).(inner := p)) else Blocked
    case Rel1 => Moved(Go(s, p, Rel2).(locked := false, owner := -1))
    case Rel2 => if s.table == -1 then Moved(Go(s, p, Rel3).(table := p)) else Blocked
    case Rel3 => Moved(Go(s.(pc := WakeAll(s.pc)), p, Rel4))
    case Rel4 => Moved(Go(s, p, Rel5).(table := -1))
    case Rel5 => Moved(Go(s, p, Out).(inner := -1))
  }

  /** kill(p): under ptable.lock, a sleeping process is made runnable. */
  function Kill(s: State, p: int): Result
    requires 0 <= p < |s.pc|
  {
    if s.table != -1 then Blocked
    else if s.pc[p].Asleep? then Moved(Go(s, p, Woken)) else Moved(s)
  }

  datatype Event = Run(p: int) | KillOne(p: int)

  function Next(s: State, e: Event): State {
    if !(0 <= e.p < |s.pc|) then s
    else
      match (if e.Run? then Step(s, e.p) else Kill(s, e.p))
      case Moved(s') => s'
      case Blocked => s
  }

  function Reach(s: State, es: seq<Event>): State {
    if es == [] then s else Next(Reach(s, es[..|es| - 1]), es[|es| - 1])
  }

  function Start(n: nat): State { State(seq(n, _ => Out), -1, -1, false, -1) }

  // ----- the invariant -----

  ghost predicate InnerOk(s: State) {
    -1 <= s.inner < |s.pc| && forall p | 0 <= p < |s.pc| :: HasInner(s.pc[p]) <==> s.inner == p
  }

  ghost predicate TableOk(s: State) {
    -1 <= s.table < |s.pc| && forall p | 0 <= p < |s.pc| :: HasTable(s.pc[p]) <==> s.table == p
  }

  ghost predicate OwnerOk(s: State) {
    && -1 <= s.owner < |s.pc| && (s.locked <==> s.owner != -1)
    && forall p | 0 <= p < |s.pc| :: HasSleeplock(s.pc[p]) <==> s.owner == p
  }

  /** Nobody waits in vain: the lock is held, or a releaser has yet to do its wakeup. */
  ghost predicate NoneForgotten(s: State) {
    forall p | 0 <= p < |s.pc| && Waiting(s.pc[p]) ::
      s.locked || (0 <= s.inner < |s.pc| && WillWake(s.pc[s.inner]))
  }

  ghost predicate TestedWhileLocked(s: State) {
    forall p | 0 <= p < |s.pc| && (s.pc[p].Sleeping0? || s.pc[p].Sleeping1?) :: s.locked
  }

  ghost predicate Inv(s: State) {
    InnerOk(s) && TableOk(s) && OwnerOk(s) && NoneForgotten(s) && TestedWhileLocked(s)
  }

  /** A holder variable follows the process that steps: `was` and `is` say whether it held the
      lock before and holds it after. */
  predicate Hands(h: int, h': int, p: int, was: bool, is_: bool) {
    h' == (if is_ && !was then p else if was && !is_ then -1 else h) && (is_ && !was ==> h == -1)
  }

  lemma StepHandsInner(s: State, p: int)
    requires 0 <= p < |s.pc| && Step(s, p).Moved?
    ensures |Step(s, p).s.pc| == |s.pc|
    ensures Hands(s.inner, Step(s, p).s.inner, p, HasInner(s.pc[p]), HasInner(Step(s, p).s.pc[p]))
  {
    hide WakeAll;
    match s.pc[p] {
      case Out => case WantInner => case Testing => case Sleeping0 => case Sleeping1 => case Sleeping2 =>
      case Switching => case Asleep => case Woken => case Resumed => case Taken => case Holding =>
      case Rel0 => case Rel1 => case Rel2 => case Rel3 => case Rel4 => case Rel5 =>
    }
  }

  lemma StepHandsTable(s: State, p: int)
    requires 0 <= p < |s.pc| && Step(s, p).Moved?
    ensures |Step(s, p).s.pc| == |s.pc|
    ensures Hands(s.table, Step(s, p).s.table, p, HasTable(s.pc[p]), HasTable(Step(s, p).s.pc[p]))
  {
    hide WakeAll;
    match s.pc[p] {
      case Out => case WantInner => case Testing => case Sleeping0 => case Sleeping1 => case Sleeping2 =>
      case Switching => case Asleep => case Woken => case Resumed => case Taken => case Holding =>
      case Rel0 => case Rel1 => case Rel2 => case Rel3 => case Rel4 => case Rel5 =>
    }
  }

  lemma StepHandsOwner(s: State, p: int)
    requires 0 <= p < |s.pc| && Step(s, p).Moved? && (s.locked <==> s.owner != -1)
    ensures |Step(s, p).s.pc| == |s.pc| && (Step(s, p).s.locked <==> Step(s, p).s.owner != -1)
    ensures Hands(s.owner, Step(s, p).s.owner, p, HasSleeplock(s.pc[p]), HasSleeplock(Step(s, p).s.pc[p]))
  {
    hide WakeAll;
    match s.pc[p] {
      case Out => case WantInner => case Testing => case Sleeping0 => case Sleeping1 => case Sleeping2 =>
      case Switching => case Asleep => case Woken => case Resumed => case Taken => case Holding =>
      case Rel0 => case Rel1 => case Rel2 => case Rel3 => case Rel4 => case Rel5 =>
    }
  }

  lemma StepOthers(s: State, p: int, q: int)
    requires 0 <= p < |s.pc| && 0 <= q < |s.pc| && q != p && Step(s, p).Moved?
    ensures |Step(s, p).s.pc| == |s.pc|
    ensures Step(s, p).s.pc[q] == s.pc[q] || (s.pc[q].Asleep? && Step(s, p).s.pc[q].Woken?)
  {
  }

  lemma StepKeepsLocks(s: State, p: int)
    requires InnerOk(s) && TableOk(s) && OwnerOk(s) && 0 <= p < |s.pc| && Step(s, p).Moved?
    ensures InnerOk(Step(s, p).s) && TableOk(Step(s, p).s) && OwnerOk(Step(s, p).s)
  {
    hide Step;
    StepHandsInner(s, p);
    StepHandsTable(s, p);
    StepHandsOwner(s, p);
    var t := Step(s, p).s;
    forall q | 0 <= q < |t.pc| && q != p
      ensures HasInner(t.pc[q]) == HasInner(s.pc[q]) && HasTable(t.pc[q]) == HasTable(s.pc[q])
      ensures HasSleeplock(t.pc[q]) == HasSleeplock(s.pc[q])
    {
      StepOthers(s, p, q);
    }
  }

  lemma StepKeepsTest(s: State, p: int)
    requires Inv(s) && 0 <= p < |s.pc| && Step(s, p).Moved?
    ensures TestedWhileLocked(Step(s, p).s)
  {
  }

  lemma StepKeepsNone(s: State, p: int)
    requires Inv(s) && 0 <= p < |s.pc| && Step(s, p).Moved?
    ensures NoneForgotten(Step(s, p).s)
  {
  }

  lemma NextKeepsInv(s: State, e: Event)
    requires Inv(s)
    ensures Inv(Next(s, e))
  {
    if 0 <= e.p < |s.pc| {
      if e.Run? {
        if Step(s, e.p).Moved? {
          hide InnerOk, TableOk, OwnerOk, NoneForgotten, TestedWhileLocked, Step;
          StepKeepsLocks(s, e.p);
          StepKeepsTest(s, e.p);
          StepKeepsNone(s, e.p);
        }
      }
    }
  }

  lemma {:induction false} ReachKeepsInv(n: nat, es: seq<Event>)
    ensures Inv(Reach(Start(n), es)) && |Reach(Start(n), es).pc| == n
  {
    if es != [] {
      ReachKeepsInv(n, es[..|es| - 1]);
      NextKeepsInv(Reach(Start(n), es[..|es| - 1]), es[|es| - 1]);
      NextKeepsSize(Reach(Start(n), es[..|es| - 1]), es[|es| - 1]);
    }
  }

  lemma NextKeepsSize(s: State, e: Event)
    ensures |Next(s, e).pc| == |s.pc|
  {
  }

  /** In every reachable state at most one process holds the sleeplock. */
  lemma MutualExclusion(n: nat, es: seq<Event>, p: int, q: int)
    requires 0 <= p < n && 0 <= q < n
    ensures |Reach(Start(n), es).pc| == n
    ensures HasSleeplock(Reach(Start(n), es).pc[p]) && HasSleeplock(Reach(Start(n), es).pc[q]) ==> p == q
  {
    ReachKeepsInv(n, es);
  }

  predicate HeldByAnother(s: State, p: int) {
    s.locked && 0 <= s.owner < |s.pc| && s.owner != p && (s.pc[s.owner].Holding? || s.pc[s.owner].Rel0?)
  }

  /** No lost wakeup: whenever the inner lock is free, a process that sleeps on the sleeplock, or
      is on its way to, implies that some other process holds it and has its release to come. */
  lemma NoLostWakeup(n: nat, es: seq<Event>, p: int)
    requires 0 <= p < n
    ensures |Reach(Start(n), es).pc| == n
    ensures Reach(Start(n), es).inner == -1 && Waiting(Reach(Start(n), es).pc[p]) ==>
              HeldByAnother(Reach(Start(n), es), p)
  {
    ReachKeepsInv(n, es);
  }

  /** And the system is never stuck: unless every process is asleep, some process can step; and
      they are never all asleep. */
  lemma NeverStuck(n: nat, es: seq<Event>)
    requires n > 0
    ensures var s := Reach(Start(n), es); |s.pc| == n && exists p :: 0 <= p < n && Step(s, p).Moved?
  {
    ReachKeepsInv(n, es);
    var s := Reach(Start(n), es);
    var p := if s.table != -1 then s.table
             else if s.inner != -1 then s.inner
             else if s.owner != -1 then s.owner else 0;
    CanStep(s, p);
    assert Step(s, p).Moved?;
  }

  lemma CanStep(s: State, p: int)
    requires Inv(s) && |s.pc| > 0
    requires p == if s.table != -1 then s.table
                  else if s.inner != -1 then s.inner
                  else if s.owner != -1 then s.owner else 0
    ensures 0 <= p < |s.pc| && Step(s, p).Moved?
  {
  }
}
