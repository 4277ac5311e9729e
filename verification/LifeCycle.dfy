/** fork, sleep, wakeup, kill, exit and wait over whole runs: no parent sleeps through the death
    of a child, and every process that exits is reaped once. */
module LifeCycle {
  import opened ProcTable

  /** The table, allocproc's counter, the pids of the processes that have exited, and the pids
      that wait has returned, in order. */
  datatype Sys = Sys(ps: seq<Proc>, nextpid: int, exited: set<int>, reaped: seq<int>)

  predicate Live(p: Proc) { p.state == SLEEPING || p.state == RUNNABLE || p.state == RUNNING }

  datatype Event =
    | Alloc(k: int)                 // allocproc
    | AllocFails(k: int)            // no kernel stack, or copyuvm fails
    | SetParent(k: int, i: int)     // fork fills in the child's entry, without the lock
    | MakeRunnable(k: int)          // end of fork
    | Run(k: int, slice: int)       // scheduler, and sleep's p->chan = 0
    | Yield(k: int)
    | Sleep(k: int, x: int)         // on anything but a process
    | Wakeup(c: Chan)
    | Kill(pid: int, ok: bool)
    | Fault(k: int)                 // trap marks the running process that misbehaved
    | Exit(i: int)
    | Wait(i: int, r: WaitResult)
    | Account                       // timer charge, setnice

  predicate At(s: Sys, k: int, st: PState) { 0 <= k < |s.ps| && s.ps[k].state == st }

  ghost predicate SameButAccounts(ps: seq<Proc>, qs: seq<Proc>) {
    |qs| == |ps| && forall i | 0 <= i < |ps| ::
      qs[i] == ps[i].(nice := qs[i].nice, runtime := qs[i].runtime, vruntime := qs[i].vruntime, slice := qs[i].slice)
  }

  ghost predicate Next(init: int, s: Sys, t: Sys, e: Event) {
    match e
    case Alloc(k) => At(s, k, UNUSED) && t == s.(ps := s.ps[k := Fresh(s.ps[k], s.nextpid)], nextpid := s.nextpid + 1)
    case AllocFails(k) => At(s, k, EMBRYO) && s.ps[k].parent == -1
      && t == s.(ps := s.ps[k := s.ps[k].(state := UNUSED)])
    case SetParent(k, i) =>
      At(s, k, EMBRYO) && s.ps[k].parent == -1 && At(s, i, RUNNING)
      && t == s.(ps := s.ps[k := s.ps[k].(parent := i, nice := s.ps[i].nice, runtime := s.ps[i].runtime,
         vruntime := s.ps[i].vruntime)])
    case MakeRunnable(k) => At(s, k, EMBRYO) && s.ps[k].parent != -1
      && t == s.(ps := s.ps[k := s.ps[k].(state := RUNNABLE)])
    case Run(k, slice) => At(s, k, RUNNABLE)
      && t == s.(ps := s.ps[k := s.ps[k].(state := RUNNING, chan := NoChan, slice := slice)])
    case Yield(k) => At(s, k, RUNNING) && t == s.(ps := s.ps[k := s.ps[k].(state := RUNNABLE)])
    case Sleep(k, x) => At(s, k, RUNNING) && t == s.(ps := s.ps[k := s.ps[k].(state := SLEEPING, chan := OnOther(x))])
    case Wakeup(c) => t == s.(ps := WakeAll(s.ps, c))
    case Kill(pid, ok) => t == s.(ps := t.ps) && DidKill(s.ps, t.ps, pid, ok)
    case Fault(k) => At(s, k, RUNNING) && t == s.(ps := s.ps[k := s.ps[k].(killed := true)])
    case Exit(i) => At(s, i, RUNNING) && i != init && t == s.(ps := t.ps, exited := s.exited + {s.ps[i].pid})
      && Exited(s.ps, t.ps, i, init)
    case Wait(i, r) =>
      At(s, i, RUNNING) && Waited(s.ps, t.ps, i, r)
      && t == s.(ps := t.ps, reaped := if r.Reap? then s.reaped + [r.pid] else s.reaped)
    case Account => t == s.(ps := t.ps) && SameButAccounts(s.ps, t.ps)
  }

  // ----- the invariants -----

  /** A process asleep in wait has no zombie child. */
  ghost predicate NoMissedExit(ps: seq<Proc>) {
    forall i, j | 0 <= i < |ps| && 0 <= j < |ps| && ps[i].state == SLEEPING && ps[i].chan == OnProc(i) ::
      !ZombieChild(ps, i, j)
  }

  /** What the entry j says about its parent. */
  ghost predicate ParentOk(ps: seq<Proc>, init: int, j: int)
    requires 0 <= j < |ps|
  {
    && (ps[j].parent != -1 ==>
          0 <= ps[j].parent < |ps| && Live(ps[ps[j].parent]) && ps[j].state != UNUSED && ps[j].parent != j)
    && (ps[j].parent == -1 ==> j == init || ps[j].state == UNUSED || ps[j].state == EMBRYO)
  }

  ghost predicate Parents(ps: seq<Proc>, init: int) {
    0 <= init < |ps| && Live(ps[init]) && ps[init].parent == -1 && forall j | 0 <= j < |ps| :: ParentOk(ps, init, j)
  }

  /** pids of entries in use are new and distinct, and the books on exits balance. */
  ghost predicate PidOk(s: Sys, j: int)
    requires 0 <= j < |s.ps|
  {
    s.ps[j].state != UNUSED ==>
      && 0 < s.ps[j].pid < s.nextpid && s.ps[j].pid !in s.reaped
      && (s.ps[j].pid in s.exited <==> s.ps[j].state == ZOMBIE)
  }

  ghost predicate Pids(s: Sys) {
    && 0 < s.nextpid && (forall j | 0 <= j < |s.ps| :: PidOk(s, j))
    && (forall i, j | 0 <= i < j < |s.ps| && s.ps[i].state != UNUSED && s.ps[j].state != UNUSED ::
       s.ps[i].pid != s.ps[j].pid)
    && (forall p | p in s.exited :: p < s.nextpid)
    && (forall p | p in s.exited :: p in s.reaped || HasZombie(s.ps, p))
    && (forall p | p in s.reaped :: p in s.exited)
    && (forall i, j | 0 <= i < j < |s.reaped| :: s.reaped[i] != s.reaped[j])
  }

  ghost predicate HasZombie(ps: seq<Proc>, pid: int) {
    exists j :: 0 <= j < |ps| && ps[j].state == ZOMBIE && ps[j].pid == pid
  }

  ghost predicate Inv(init: int, s: Sys) { NoMissedExit(s.ps) && Parents(s.ps, init) && Pids(s) }

  /** Right after userinit. */
  ghost predicate Start(init: int, s: Sys) {
    && 0 <= init < |s.ps| && s.ps[init].state == RUNNABLE && s.ps[init].pid == 1 && s.ps[init].parent == -1
    && (forall j | 0 <= j < |s.ps| && j != init :: s.ps[j].state == UNUSED && s.ps[j].parent == -1)
    && (forall j | 0 <= j < |s.ps| :: !s.ps[j].killed)
    && s.nextpid == 2 && s.exited == {} && s.reaped == []
  }

  lemma StartInv(init: int, s: Sys)
    requires Start(init, s)
    ensures Inv(init, s)
  {
  }

  // ----- exit -----

  lemma ExitKeepsWait(ps: seq<Proc>, qs: seq<Proc>, init: int, i: int)
    requires NoMissedExit(ps) && Parents(ps, init) && 0 <= i < |ps| && ps[i].state == RUNNING && i != init
    requires Exited(ps, qs, i, init)
    ensures NoMissedExit(qs)
  {
    forall a, z | 0 <= a < |qs| && 0 <= z < |qs| && qs[a].state == SLEEPING && qs[a].chan == OnProc(a)
      ensures !ZombieChild(qs, a, z)
    {
      assert ParentOk(ps, init, z);
      assert ps[a].state == SLEEPING && !WokenByExit(ps, i, init, a);
      assert !ZombieChild(ps, a, z);
      if ps[z].parent == i && ps[z].state == ZOMBIE { assert LeavesZombie(ps, i, |ps|); }
    }
  }

  lemma ExitKeepsParents(ps: seq<Proc>, qs: seq<Proc>, init: int, i: int)
    requires Parents(ps, init) && 0 <= i < |ps| && ps[i].state == RUNNING && i != init && Exited(ps, qs, i, init)
    ensures Parents(qs, init)
  {
    forall j | 0 <= j < |qs|
      ensures ParentOk(qs, init, j)
    {
      assert ParentOk(ps, init, j);
    }
  }

  lemma ExitKeepsPids(s: Sys, t: Sys, init: int, i: int)
    requires Pids(s) && At(s, i, RUNNING) && Exited(s.ps, t.ps, i, init)
    requires t == s.(ps := t.ps, exited := s.exited + {s.ps[i].pid})
    ensures Pids(t)
  {
    assert PidOk(s, i);
    forall j | 0 <= j < |t.ps|
      ensures PidOk(t, j)
    {
      assert PidOk(s, j);
    }
    forall p | p in t.exited
      ensures p in t.reaped || HasZombie(t.ps, p)
    {
      if p in s.exited && p !in s.reaped {
        var z :| 0 <= z < |s.ps| && s.ps[z].state == ZOMBIE && s.ps[z].pid == p;
        assert t.ps[z].state == ZOMBIE;
      } else {
        assert t.ps[i].state == ZOMBIE && t.ps[i].pid == s.ps[i].pid;
      }
    }
  }

  // ----- wait -----

  lemma WaitKeeps(s: Sys, t: Sys, init: int, i: int, r: WaitResult)
    requires NoMissedExit(s.ps) && Parents(s.ps, init) && At(s, i, RUNNING) && Waited(s.ps, t.ps, i, r)
    ensures NoMissedExit(t.ps) && Parents(t.ps, init)
  {
    forall j | 0 <= j < |t.ps|
      ensures ParentOk(t.ps, init, j)
    {
      assert ParentOk(s.ps, init, j);
    }
    forall a, z | 0 <= a < |t.ps| && 0 <= z < |t.ps| && t.ps[a].state == SLEEPING && t.ps[a].chan == OnProc(a)
      ensures !ZombieChild(t.ps, a, z)
    {
      assert !ZombieChild(s.ps, if a == i then i else a, z) || r.Reap?;
      if r.Reap? { assert !ZombieChild(s.ps, a, z); }
    }
  }

  lemma WaitKeepsPids(s: Sys, t: Sys, i: int, r: WaitResult)
    requires Pids(s) && At(s, i, RUNNING) && Waited(s.ps, t.ps, i, r)
    requires t == s.(ps := t.ps, reaped := if r.Reap? then s.reaped + [r.pid] else s.reaped)
    ensures Pids(t)
  {
    forall j | 0 <= j < |t.ps|
      ensures PidOk(t, j)
    {
      assert PidOk(s, j);
      if r.Reap? { assert PidOk(s, r.j); }
    }
    if r.Reap? { assert PidOk(s, r.j); }
    forall p | p in t.exited
      ensures p in t.reaped || HasZombie(t.ps, p)
    {
      if p !in s.reaped {
        var z :| 0 <= z < |s.ps| && s.ps[z].state == ZOMBIE && s.ps[z].pid == p;
        if r.Reap? && z == r.j { assert t.reaped[|s.reaped|] == p; } else { assert t.ps[z].state == ZOMBIE; }
      }
    }
  }

  // ----- the other steps change one entry, or only make sleepers runnable -----

  /** No entry dies or is born, nobody changes parents or pid, and whoever is now asleep in wait
      already was. */
  ghost predicate Quiet(ps: seq<Proc>, qs: seq<Proc>) {
    |qs| == |ps| && forall j | 0 <= j < |ps| ::
      && qs[j].parent == ps[j].parent && qs[j].pid == ps[j].pid
      && (qs[j].state == ps[j].state || (Live(ps[j]) && Live(qs[j]))
         || (ps[j].state == EMBRYO && ps[j].parent != -1 && Live(qs[j])))
      && (qs[j].state == SLEEPING && qs[j].chan == OnProc(j) ==> ps[j].state == SLEEPING && ps[j].chan == OnProc(j))
  }

  lemma QuietKeeps(s: Sys, t: Sys, init: int)
    requires Inv(init, s) && Quiet(s.ps, t.ps) && t == s.(ps := t.ps)
    ensures Inv(init, t)
  {
    forall j | 0 <= j < |t.ps|
      ensures ParentOk(t.ps, init, j) && PidOk(t, j)
    {
      assert ParentOk(s.ps, init, j) && PidOk(s, j);
    }
    forall a, z | 0 <= a < |t.ps| && 0 <= z < |t.ps| && t.ps[a].state == SLEEPING && t.ps[a].chan == OnProc(a)
      ensures !ZombieChild(t.ps, a, z)
    {
      assert !ZombieChild(s.ps, a, z);
    }
    forall p | p in t.exited
      ensures p in t.reaped || HasZombie(t.ps, p)
    {
      if p !in s.reaped {
        var z :| 0 <= z < |s.ps| && s.ps[z].state == ZOMBIE && s.ps[z].pid == p;
        assert t.ps[z].state == ZOMBIE;
      }
    }
  }

  lemma QuietSteps(init: int, s: Sys, t: Sys, e: Event)
    requires Next(init, s, t, e)
    requires e.MakeRunnable? || e.Run? || e.Yield? || e.Sleep? || e.Wakeup? || e.Kill? || e.Fault? || e.Account?
    ensures Quiet(s.ps, t.ps) && t == s.(ps := t.ps)
  {
  }

  lemma BirthSteps(init: int, s: Sys, t: Sys, e: Event)
    requires Inv(init, s) && Next(init, s, t, e) && (e.Alloc? || e.AllocFails? || e.SetParent?)
    ensures Inv(init, t)
  {
    forall j | 0 <= j < |t.ps|
      ensures ParentOk(t.ps, init, j) && PidOk(t, j)
    {
      assert ParentOk(s.ps, init, j) && PidOk(s, j);
    }
    forall a, z | 0 <= a < |t.ps| && 0 <= z < |t.ps| && t.ps[a].state == SLEEPING && t.ps[a].chan == OnProc(a)
      ensures !ZombieChild(t.ps, a, z)
    {
      assert !ZombieChild(s.ps, a, z);
    }
    forall p | p in t.exited
      ensures p in t.reaped || HasZombie(t.ps, p)
    {
      if p !in s.reaped {
        var z :| 0 <= z < |s.ps| && s.ps[z].state == ZOMBIE && s.ps[z].pid == p;
        assert t.ps[z].state == ZOMBIE;
      }
    }
    forall i, j | 0 <= i < j < |t.ps| && t.ps[i].state != UNUSED && t.ps[j].state != UNUSED
      ensures t.ps[i].pid != t.ps[j].pid
    {
      assert PidOk(s, i) && PidOk(s, j);
    }
  }

  lemma NextKeepsInv(init: int, s: Sys, t: Sys, e: Event)
    requires Inv(init, s) && Next(init, s, t, e)
    ensures Inv(init, t)
  {
    match e {
      case Exit(i) =>
        hide Exited, NoMissedExit, Parents, Pids;
        ExitKeepsWait(s.ps, t.ps, init, i);
        ExitKeepsParents(s.ps, t.ps, init, i);
        ExitKeepsPids(s, t, init, i);
      case Wait(i, r) =>
        WaitKeeps(s, t, init, i, r);
        WaitKeepsPids(s, t, i, r);
      case Alloc(_) => BirthSteps(init, s, t, e);
      case AllocFails(_) => BirthSteps(init, s, t, e);
      case SetParent(_, _) => BirthSteps(init, s, t, e);
      case _ =>
        QuietSteps(init, s, t, e);
        QuietKeeps(s, t, init);
    }
  }

  predicate Edge(a: PState, b: PState) {
    match a
    case UNUSED => b == EMBRYO
    case EMBRYO => b == RUNNABLE || b == UNUSED
    case RUNNABLE => b == RUNNING
    case RUNNING => b == RUNNABLE || b == SLEEPING || b == ZOMBIE
    case SLEEPING => b == RUNNABLE
    case ZOMBIE => b == UNUSED
  }

  /** The state diagram of a process: no step moves an entry otherwise, and each step moves the one it
      names. */
  lemma StateDiagram(init: int, s: Sys, t: Sys, e: Event, j: int)
    requires Next(init, s, t, e) && 0 <= j < |s.ps|
    ensures |t.ps| == |s.ps| && (t.ps[j].state == s.ps[j].state || Edge(s.ps[j].state, t.ps[j].state))
    ensures (e.Alloc? || e.AllocFails? || e.MakeRunnable? || e.Run? || e.Yield? || e.Sleep?) && e.k == j ==>
      Edge(s.ps[j].state, t.ps[j].state)
    ensures (e.Exit? && e.i == j) || (e.Wait? && e.r.Slept? && e.i == j) || (e.Wait? && e.r.Reap? && e.r.j == j) ==>
      Edge(s.ps[j].state, t.ps[j].state)
    ensures e.Sleep? && e.k == j ==> t.ps[j].state == SLEEPING && t.ps[j].chan == OnOther(e.x)
    ensures e.Exit? && e.i == j ==> t.ps[j].state == ZOMBIE
    ensures e.Yield? && e.k == j ==> t.ps[j].state == RUNNABLE
    ensures e.Wakeup? && s.ps[j].state == SLEEPING && s.ps[j].chan == e.c && 0 <= s.ps[j].nice < 40 ==>
      t.ps[j].state == RUNNABLE
  {
    hide MinRunnable, Place, LeavesZombie;
  }

  /** fork's child inherits its parent's nice value and accounts, and nobody else changes. */
  lemma ChildInherits(init: int, s: Sys, t: Sys, k: int, i: int)
    requires Next(init, s, t, SetParent(k, i))
    ensures 0 <= k < |t.ps| == |s.ps| && 0 <= i < |s.ps| && k != i && t.ps[k].parent == i
    ensures t.ps[k].nice == s.ps[i].nice && t.ps[k].runtime == s.ps[i].runtime && t.ps[k].vruntime == s.ps[i].vruntime
    ensures t.ps[k].pid == s.ps[k].pid && t.ps[k].state == EMBRYO && t == s.(ps := s.ps[k := t.ps[k]])
  {
  }

  /** A run: its states, and the event that leads from each to the next. */
  ghost predicate IsRun(init: int, ss: seq<Sys>, es: seq<Event>) {
    && |ss| == |es| + 1 && Start(init, ss[0])
    && forall n | 0 <= n < |es| :: Next(init, ss[n], ss[n + 1], es[n])
  }

  lemma {:induction false} RunKeepsInv(init: int, ss: seq<Sys>, es: seq<Event>, n: nat)
    requires IsRun(init, ss, es) && n < |ss|
    ensures Inv(init, ss[n])
  {
    if n == 0 {
      StartInv(init, ss[0]);
    } else {
      RunKeepsInv(init, ss, es, n - 1);
      assert Next(init, ss[n - 1], ss[n - 1 + 1], es[n - 1]);
      NextKeepsInv(init, ss[n - 1], ss[n], es[n - 1]);
    }
  }

  /** In every reachable state, a process asleep in wait has no child to reap. */
  lemma ExitIsNeverMissed(init: int, ss: seq<Sys>, es: seq<Event>, n: nat, i: int, j: int)
    requires IsRun(init, ss, es) && n < |ss| && 0 <= i < |ss[n].ps| && 0 <= j < |ss[n].ps|
    requires ss[n].ps[i].state == SLEEPING && ss[n].ps[i].chan == OnProc(i)
    ensures !(ss[n].ps[j].state == ZOMBIE && ss[n].ps[j].parent == i)
  {
    RunKeepsInv(init, ss, es, n);
    assert !ZombieChild(ss[n].ps, i, j);
  }

  /** Process i went to sleep in wait in step m, and up to step n it has neither run nor called wait since. */
  ghost predicate WentToWait(es: seq<Event>, m: nat, n: nat, i: int) {
    && m < n <= |es| && es[m] == Wait(i, Slept)
    && forall j | m < j < n :: !(es[j].Wait? && es[j].i == i) && !(es[j].Run? && es[j].k == i)
  }

  /** Still asleep for exit to wake, or woken and not yet run. */
  predicate WaitsOrWoken(ps: seq<Proc>, i: int) {
    0 <= i < |ps| && (ps[i].state == RUNNABLE || (ps[i].state == SLEEPING && ps[i].chan == OnProc(i)))
  }

  lemma StaysWaiting(init: int, s: Sys, t: Sys, e: Event, i: int)
    requires Next(init, s, t, e) && WaitsOrWoken(s.ps, i)
    requires !(e.Wait? && e.i == i) && !(e.Run? && e.k == i)
    ensures WaitsOrWoken(t.ps, i)
  {
    hide MinRunnable, Place, LeavesZombie;
  }

  lemma {:induction false} WaiterIsOnChannel(init: int, ss: seq<Sys>, es: seq<Event>, m: nat, n: nat, i: int)
    requires IsRun(init, ss, es) && WentToWait(es, m, n, i)
    ensures WaitsOrWoken(ss[n].ps, i)
  {
    hide Next;
    assert Next(init, ss[n - 1], ss[n - 1 + 1], es[n - 1]);
    if n == m + 1 {
      SleepsInWait(init, ss[m], ss[n], i);
    } else {
      WaiterIsOnChannel(init, ss, es, m, n - 1, i);
      StaysWaiting(init, ss[n - 1], ss[n], es[n - 1], i);
    }
  }

  lemma SleepsInWait(init: int, s: Sys, t: Sys, i: int)
    requires Next(init, s, t, Wait(i, Slept))
    ensures WaitsOrWoken(t.ps, i)
  {
  }

  /** No parent sleeps through the death of a child: a process that went to sleep in wait, has not run
      since and is still asleep, has no zombie child. */
  lemma WaiterHasNoZombie(init: int, ss: seq<Sys>, es: seq<Event>, m: nat, n: nat, i: int, j: int)
    requires IsRun(init, ss, es) && WentToWait(es, m, n, i)
    requires 0 <= i < |ss[n].ps| && 0 <= j < |ss[n].ps| && ss[n].ps[i].state == SLEEPING
    ensures !(ss[n].ps[j].state == ZOMBIE && ss[n].ps[j].parent == i)
  {
    WaiterIsOnChannel(init, ss, es, m, n, i);
    ExitIsNeverMissed(init, ss, es, n, i, j);
  }

  /** In every reachable state, a zombie's parent is a live process, so someone can reap it. */
  lemma ZombieHasLiveParent(init: int, ss: seq<Sys>, es: seq<Event>, n: nat, j: int)
    requires IsRun(init, ss, es) && n < |ss| && 0 <= j < |ss[n].ps| && ss[n].ps[j].state == ZOMBIE
    ensures 0 <= ss[n].ps[j].parent < |ss[n].ps| && Live(ss[n].ps[ss[n].ps[j].parent])
  {
    RunKeepsInv(init, ss, es, n);
    assert ParentOk(ss[n].ps, init, j);
  }

  /** Over a whole run every pid that wait returns belongs to a process that exited, no pid is
      returned twice, and every exited process not yet returned is still a zombie. */
  lemma ReapedExactlyOnce(init: int, ss: seq<Sys>, es: seq<Event>, n: nat)
    requires IsRun(init, ss, es) && n < |ss|
    ensures forall i, j | 0 <= i < j < |ss[n].reaped| :: ss[n].reaped[i] != ss[n].reaped[j]
    ensures forall p :: p in ss[n].exited <==> p in ss[n].reaped || HasZombie(ss[n].ps, p)
    ensures forall p | p in ss[n].reaped :: !HasZombie(ss[n].ps, p)
  {
    RunKeepsInv(init, ss, es, n);
    var s := ss[n];
    forall p | HasZombie(s.ps, p)
      ensures p in s.exited && p !in s.reaped
    {
      var z :| 0 <= z < |s.ps| && s.ps[z].state == ZOMBIE && s.ps[z].pid == p;
      assert PidOk(s, z);
    }
  }

  // ----- kills that outlive their process -----

  /** Event e marks entry k: kill takes the first entry with the pid, in use or not; a fault takes the
      process that runs. */
  ghost predicate Hits(s: Sys, e: Event, k: int) {
    || (e.Fault? && e.k == k)
    || (&& e.Kill? && e.ok && 0 <= k < |s.ps| && s.ps[k].pid == e.pid
        && (forall j | 0 <= j < k :: s.ps[j].pid != e.pid))
  }

  predicate Reaps(e: Event, k: int) { e.Wait? && e.r.Reap? && e.r.j == k }

  lemma NextKilled(init: int, s: Sys, t: Sys, e: Event, k: int)
    requires Next(init, s, t, e) && 0 <= k < |s.ps|
    ensures |t.ps| == |s.ps| && (t.ps[k].killed <==> !Reaps(e, k) && (s.ps[k].killed || Hits(s, e, k)))
  {
    hide MinRunnable, Place, LeavesZombie;
  }

  /** A kill or fault of entry k in the first n steps that no reaping of the entry has undone since. */
  ghost predicate KillStands(ss: seq<Sys>, es: seq<Event>, n: nat, k: int)
    requires |ss| == |es| + 1 && n < |ss|
  {
    exists m :: 0 <= m < n && Hits(ss[m], es[m], k) && forall j | m < j < n :: !Reaps(es[j], k)
  }

  lemma StandsNext(ss: seq<Sys>, es: seq<Event>, n: nat, k: int)
    requires |ss| == |es| + 1 && n < |es|
    ensures KillStands(ss, es, n + 1, k) <==> (KillStands(ss, es, n, k) && !Reaps(es[n], k)) || Hits(ss[n], es[n], k)
  {
    hide Hits, Reaps;
    if KillStands(ss, es, n, k) && !Reaps(es[n], k) {
      var m :| 0 <= m < n && Hits(ss[m], es[m], k) && forall j | m < j < n :: !Reaps(es[j], k);
      assert forall j | m < j < n + 1 :: !Reaps(es[j], k);
    }
    if KillStands(ss, es, n + 1, k) {
      var m :| 0 <= m < n + 1 && Hits(ss[m], es[m], k) && forall j | m < j < n + 1 :: !Reaps(es[j], k);
      if m < n { assert Hits(ss[m], es[m], k) && !Reaps(es[n], k); }
    }
  }

  lemma HitsNotReaps(s: Sys, e: Event, k: int)
    ensures !(Hits(s, e, k) && Reaps(e, k))
  {
  }

  /** An entry is marked killed if and only if some kill or fault hit it that no wait has reaped away
      since. */
  lemma {:induction false} KilledIff(init: int, ss: seq<Sys>, es: seq<Event>, n: nat, k: int)
    requires IsRun(init, ss, es) && n < |ss| && 0 <= k < |ss[0].ps|
    ensures |ss[n].ps| == |ss[0].ps| && (ss[n].ps[k].killed <==> KillStands(ss, es, n, k))
  {
    hide Next, Hits, Reaps;
    if n > 0 {
      KilledIff(init, ss, es, n - 1, k);
      assert Next(init, ss[n - 1], ss[n - 1 + 1], es[n - 1]);
      NextKilled(init, ss[n - 1], ss[n], es[n - 1], k);
      StandsNext(ss, es, n - 1, k);
      HitsNotReaps(ss[n - 1], es[n - 1], k);
    }
  }

  predicate Started(p: Proc) { Live(p) || p.state == ZOMBIE }

  /** Only wait makes the entry of a process that has run unused. */
  lemma StartedUntilReaped(init: int, s: Sys, t: Sys, e: Event, k: int)
    requires Next(init, s, t, e) && 0 <= k < |s.ps| && Started(s.ps[k]) && !Reaps(e, k)
    ensures k < |t.ps| && Started(t.ps[k])
  {
    hide MinRunnable, Place, LeavesZombie;
  }

  lemma {:induction false} StaysStarted(init: int, ss: seq<Sys>, es: seq<Event>, m: nat, n: nat, k: int)
    requires IsRun(init, ss, es) && m <= n < |ss| && 0 <= k < |ss[m].ps| && Started(ss[m].ps[k])
    requires forall j | m <= j < n :: !Reaps(es[j], k)
    ensures k < |ss[n].ps| && Started(ss[n].ps[k])
  {
    hide Next, Reaps;
    if m < n {
      StaysStarted(init, ss, es, m, n - 1, k);
      assert Next(init, ss[n - 1], ss[n - 1 + 1], es[n - 1]);
      StartedUntilReaped(init, ss[n - 1], ss[n], es[n - 1], k);
    }
  }

  /** A kill of entry k while no process had yet run in it, not undone since. */
  ghost predicate StaleKill(ss: seq<Sys>, es: seq<Event>, n: nat, k: int)
    requires |ss| == |es| + 1 && n < |ss|
  {
    exists m :: 0 <= m < n && Hits(ss[m], es[m], k) && es[m].Kill? && !Started(ss[m].ps[k])
                && forall j | m < j < n :: !Reaps(es[j], k)
  }

  /** While its entry is unused, what marks it can only be such a kill: a process that faults or is
      killed is reaped before its entry is free again. */
  lemma StandsIsStale(init: int, ss: seq<Sys>, es: seq<Event>, n: nat, k: int)
    requires IsRun(init, ss, es) && n < |ss| && 0 <= k < |ss[n].ps| && !Started(ss[n].ps[k])
    ensures KillStands(ss, es, n, k) <==> StaleKill(ss, es, n, k)
  {
    hide Started;
    if KillStands(ss, es, n, k) {
      var m :| 0 <= m < n && Hits(ss[m], es[m], k) && forall j | m < j < n :: !Reaps(es[j], k);
      assert Next(init, ss[m], ss[m + 1], es[m]);
      RunLength(init, ss, es, n);
      RunLength(init, ss, es, m);
      if es[m].Fault? { FaultIsStarted(init, ss[m], ss[m + 1], es[m], k); }
      HitsNotReaps(ss[m], es[m], k);
      if Started(ss[m].ps[k]) { StaysStarted(init, ss, es, m, n, k); }
    }
  }

  lemma FaultIsStarted(init: int, s: Sys, t: Sys, e: Event, k: int)
    requires Next(init, s, t, e) && e == Fault(k)
    ensures 0 <= k < |s.ps| && Started(s.ps[k])
  {
  }

  /** When a process is born killed: exactly when a kill, before there was any such process, found
      the pid left in its unused entry (0 after wait, a stale one after a failed fork), or its new pid
      before fork completed. */
  lemma BornKilledIff(init: int, ss: seq<Sys>, es: seq<Event>, n: nat)
    requires IsRun(init, ss, es) && n < |es| && es[n].Alloc?
    ensures 0 <= es[n].k < |ss[n + 1].ps| && ss[n + 1].ps[es[n].k].state == EMBRYO
    ensures ss[n + 1].ps[es[n].k].killed <==> StaleKill(ss, es, n, es[n].k)
  {
    hide Hits, Reaps, KillStands, StaleKill;
    assert Next(init, ss[n], ss[n + 1], es[n]);
    RunLength(init, ss, es, n);
    KilledIff(init, ss, es, n, es[n].k);
    StandsIsStale(init, ss, es, n, es[n].k);
  }

  lemma {:induction false} RunLength(init: int, ss: seq<Sys>, es: seq<Event>, n: nat)
    requires IsRun(init, ss, es) && n < |ss|
    ensures |ss[n].ps| == |ss[0].ps|
  {
    hide Exited, Waited, WakeAll;
    if n > 0 {
      RunLength(init, ss, es, n - 1);
      assert Next(init, ss[n - 1], ss[n - 1 + 1], es[n - 1]);
      NextLength(init, ss[n - 1], ss[n], es[n - 1]);
    }
  }

  lemma NextLength(init: int, s: Sys, t: Sys, e: Event)
    requires Next(init, s, t, e)
    ensures |t.ps| == |s.ps|
  {
  }

  /** kill(0) beside a process 1 succeeds by hitting an unused entry, and the next process to get
      that entry is killed before it runs. */
  lemma KillZeroIsInherited(ps: seq<Proc>, qs: seq<Proc>, k: int, pid: int)
    requires DidKill(ps, qs, 0, true) && 0 <= k < |ps| && ps[k].pid == 0 && ps[k].state == UNUSED
    requires forall j | 0 <= j < k :: ps[j].pid != 0
    ensures qs[k].state == UNUSED && Fresh(qs[k], pid).state == EMBRYO && Fresh(qs[k], pid).killed
  {
  }
}
