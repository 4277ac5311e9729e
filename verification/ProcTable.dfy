/** The process table of proc.c and the scans that update it in place: wakeup1, exit, wait, kill,
    allocproc, the scheduler's choice and the timer's charge (trap.c).  Every method here runs
    with ptable.lock held, so each is one step for everybody else. */
module ProcTable {
  import opened Params

  datatype PState = UNUSED | EMBRYO | SLEEPING | RUNNABLE | RUNNING | ZOMBIE

  /** What a process sleeps on: a process table entry (wait) or something else. */
  datatype Chan = NoChan | OnProc(i: int) | OnOther(x: int)

  /** Parents are table indices, -1 for the null pointer. */
  datatype Proc = Proc(state: PState, pid: int, parent: int, chan: Chan, killed: bool,
                       nice: int, runtime: int, vruntime: int, slice: int)

  const WEIGHTS: seq<int> := [
    88761, 71755, 56483, 46273, 36291,
    29154, 23254, 18705, 14949, 11916,
     9548,  7620,  6100,  4904,  3906,
     3121,  2501,  1991,  1586,  1277,
     1024,   820,   655,   526,   423,
      335,   272,   215,   172,   137,
      110,    87,    70,    56,    45,
       36,    29,    23,    18,    15]

  function Weight(nice: int): (w: int)
    requires 0 <= nice < 40
    ensures 15 <= w <= 88761
  {
    WEIGHTS[nice]
  }

  /** Weights fall with nice, by a fifth to two ninths a step; the default of 20 has 1024. */
  lemma WeightsFall(nice: int)
    requires 0 <= nice < 39
    ensures 6 * Weight(nice + 1) <= 5 * Weight(nice) && 18 * Weight(nice) <= 23 * Weight(nice + 1)
    ensures Weight(20) == 1024 && Weight(0) == 88761 && Weight(39) == 15
  {
  }

  /** What one tick costs: 1000 * weight_table[20] / weight. */
  function Delta(nice: int): (d: int)
    requires 0 <= nice < 40
    ensures 11 <= d <= 68266
  {
    1000 * 1024 / Weight(nice)
  }

  /** A tick costs a process of nice 20 a thousand, and any other as much in proportion, rounded down. */
  lemma TickCosts(nice: int)
    requires 0 <= nice < 40
    ensures Delta(20) == 1000
    ensures Delta(nice) * Weight(nice) <= 1000 * Weight(20) < (Delta(nice) + 1) * Weight(nice)
  {
    hide Weight;
    assert Weight(20) == 1024 by { WeightsFall(0); }
  }

  ghost predicate NicesOk(ps: seq<Proc>) {
    forall i | 0 <= i < |ps| :: 0 <= ps[i].nice < 40 && 0 <= ps[i].vruntime < UINT
  }

  // ----- wakeup1 -----

  /** The least vruntime of a runnable process; none if there is none. */
  datatype Least = NoLeast | Least(v: int)

  function MinRunnable(ps: seq<Proc>): Least {
    if ps == [] then NoLeast
    else
      var m := MinRunnable(ps[..|ps| - 1]);
      var p := ps[|ps| - 1];
      if p.state != RUNNABLE then m
      else if m.NoLeast? || p.vruntime < m.v then Least(p.vruntime)
      else m
  }

  ghost predicate IsLeast(ps: seq<Proc>, m: Least) {
    match m
    case NoLeast => forall i | 0 <= i < |ps| :: ps[i].state != RUNNABLE
    case Least(v) =>
      && (exists i :: 0 <= i < |ps| && ps[i].state == RUNNABLE && ps[i].vruntime == v)
      && (forall i | 0 <= i < |ps| && ps[i].state == RUNNABLE :: v <= ps[i].vruntime)
  }

  lemma {:induction false} MinIsLeast(ps: seq<Proc>)
    ensures IsLeast(ps, MinRunnable(ps))
  {
    if ps != [] {
      var n := |ps| - 1;
      MinIsLeast(ps[..n]);
      var m := MinRunnable(ps[..n]);
      if m.Least? {
        var i :| 0 <= i < n && ps[..n][i].state == RUNNABLE && ps[..n][i].vruntime == m.v;
        assert ps[i] == ps[..n][i];
      }
      forall i | 0 <= i < n
        ensures ps[i] == ps[..n][i]
      {
      }
    }
  }

  lemma LeastUnique(ps: seq<Proc>, a: Least, b: Least)
    requires IsLeast(ps, a) && IsLeast(ps, b)
    ensures a == b
  {
  }

  /** The bits of a uint read as an int. */
  function AsInt(u: int): int { if u >= UINT / 2 then u - UINT else u }

  /** Where wakeup1 puts a process: one tick's charge below the least runnable one. */
  function Place(m: Least, nice: int): int
    requires 0 <= nice < 40
  {
    var least := if m.Least? then AsInt(m.v) else 0;
    if least < Delta(nice) then 0 else least - Delta(nice)
  }

  function Woken(p: Proc, c: Chan, m: Least): Proc {
    if p.state == SLEEPING && p.chan == c && 0 <= p.nice < 40
    then p.(state := RUNNABLE, vruntime := Place(m, p.nice)) else p
  }

  function WakeAll(ps: seq<Proc>, c: Chan): (r: seq<Proc>)
    ensures |r| == |ps|
    ensures forall i | 0 <= i < |ps| :: r[i] == Woken(ps[i], c, MinRunnable(ps))
  {
    seq(|ps|, i requires 0 <= i < |ps| => Woken(ps[i], c, MinRunnable(ps)))
  }

  /** With nobody runnable a woken process starts at 0. */
  lemma WakeupAlone(ps: seq<Proc>, c: Chan, i: int)
    requires NicesOk(ps) && 0 <= i < |ps| && ps[i].state == SLEEPING && ps[i].chan == c
    requires forall j | 0 <= j < |ps| :: ps[j].state != RUNNABLE
    ensures WakeAll(ps, c)[i].vruntime == 0
  {
    MinIsLeast(ps);
  }

  /** A woken process never starts behind a process that was already runnable, and starts at most
      one charge ahead of all of them, exactly while the least vruntime reads as a positive int. */
  lemma WakeupPlacesInFront(ps: seq<Proc>, c: Chan, i: int)
    requires NicesOk(ps) && 0 <= i < |ps| && ps[i].state == SLEEPING && ps[i].chan == c
    ensures var v := WakeAll(ps, c)[i].vruntime;
      && WakeAll(ps, c)[i].state == RUNNABLE && 0 <= v
      && (forall j | 0 <= j < |ps| && ps[j].state == RUNNABLE :: v <= ps[j].vruntime)
      && (MinRunnable(ps).Least? ==>
            (v + Delta(ps[i].nice) >= MinRunnable(ps).v <==> MinRunnable(ps).v < UINT / 2))
  {
    MinIsLeast(ps);
  }

  // ----- exit -----

  /** exit of process i: its children go to init, its parent and (if it leaves a zombie) init are
      woken if they sleep in wait, and it becomes a zombie. */
  ghost predicate Exited(ps: seq<Proc>, qs: seq<Proc>, i: int, init: int)
    requires 0 <= i < |ps|
  {
    && |qs| == |ps|
    && forall j | 0 <= j < |ps| ::
         && qs[j].parent == (if ps[j].parent == i then init else ps[j].parent)
         && qs[j].pid == ps[j].pid && qs[j].chan == ps[j].chan && qs[j].killed == ps[j].killed
         && qs[j].nice == ps[j].nice
         && qs[j].state == (if j == i then ZOMBIE else if WokenByExit(ps, i, init, j) then RUNNABLE else ps[j].state)
         && qs[j].vruntime == AfterWakeups(ps, i, init, |ps|)[j].vruntime && qs[j].runtime == ps[j].runtime
         && qs[j].slice == ps[j].slice
  }

  /** Where the wakeups of exit put the processes they wake: first the parent, then init. */
  ghost function AfterWakeups(ps: seq<Proc>, i: int, init: int, n: int): (r: seq<Proc>)
    requires 0 <= i < |ps| && n <= |ps|
    ensures |r| == |ps|
  {
    var q := WakeAll(ps, OnProc(ps[i].parent));
    if LeavesZombie(ps, i, n) then WakeAll(q, OnProc(init)) else q
  }

  ghost predicate WokenByExit(ps: seq<Proc>, i: int, init: int, j: int)
    requires 0 <= i < |ps| && 0 <= j < |ps|
  {
    ps[j].state == SLEEPING
    && (ps[j].chan == OnProc(ps[i].parent) || (ps[j].chan == OnProc(init) && LeavesZombie(ps, i, |ps|)))
  }

  ghost predicate LeavesZombie(ps: seq<Proc>, i: int, n: int)
    requires n <= |ps|
  {
    exists z :: 0 <= z < n && ps[z].parent == i && ps[z].state == ZOMBIE
  }

  /** The table while exit's loop has handled the first n entries. */
  ghost predicate Exiting(ps: seq<Proc>, qs: seq<Proc>, i: int, init: int, n: int)
    requires 0 <= i < |ps| && 0 <= n <= |ps|
  {
    && |qs| == |ps|
    && forall j | 0 <= j < |ps| ::
         && qs[j].parent == (if j < n && ps[j].parent == i then init else ps[j].parent)
         && qs[j].pid == ps[j].pid && qs[j].chan == ps[j].chan && qs[j].killed == ps[j].killed
         && qs[j].nice == ps[j].nice
         && qs[j].state == (if WokenSoFar(ps, i, init, n, j) then RUNNABLE else ps[j].state)
         && qs[j].vruntime == AfterWakeups(ps, i, init, n)[j].vruntime && qs[j].runtime == ps[j].runtime
         && qs[j].slice == ps[j].slice
         && 0 <= qs[j].vruntime < UINT
  }

  ghost predicate WokenSoFar(ps: seq<Proc>, i: int, init: int, n: int, j: int)
    requires 0 <= i < |ps| && 0 <= j < |ps| && n <= |ps|
  {
    ps[j].state == SLEEPING
    && (ps[j].chan == OnProc(ps[i].parent) || (ps[j].chan == OnProc(init) && LeavesZombie(ps, i, n)))
  }

  /** Those asleep in wait for the exiting process are placed by the runnable processes it leaves. */
  lemma ParentPlaced(ps: seq<Proc>, i: int, init: int)
    requires NicesOk(ps) && 0 <= i < |ps|
    ensures forall j | 0 <= j < |ps| && ps[j].state == SLEEPING && ps[j].chan == OnProc(ps[i].parent) ::
      AfterWakeups(ps, i, init, |ps|)[j].vruntime == Place(MinRunnable(ps), ps[j].nice)
  {
    hide Place, MinRunnable;
  }

  lemma PlaceInRange(m: Least, nice: int)
    requires 0 <= nice < 40 && (m.Least? ==> 0 <= m.v < UINT)
    ensures 0 <= Place(m, nice) < UINT
  {
  }

  lemma WakeInRange(ps: seq<Proc>, c: Chan)
    requires NicesOk(ps)
    ensures NicesOk(WakeAll(ps, c))
  {
    MinIsLeast(ps);
    forall j | 0 <= j < |ps|
      ensures 0 <= WakeAll(ps, c)[j].vruntime < UINT
    {
      PlaceInRange(MinRunnable(ps), ps[j].nice);
    }
  }

  lemma ExitStarts(ps: seq<Proc>, qs: seq<Proc>, i: int, init: int)
    requires NicesOk(ps) && 0 <= i < |ps| && qs == WakeAll(ps, OnProc(ps[i].parent))
    ensures Exiting(ps, qs, i, init, 0) && NicesOk(qs)
  {
    WakeInRange(ps, OnProc(ps[i].parent));
  }

  lemma LeavesMore(ps: seq<Proc>, i: int, n: int)
    requires 0 <= n < |ps|
    ensures LeavesZombie(ps, i, n + 1) <==> LeavesZombie(ps, i, n) || ZombieChild(ps, i, n)
  {
  }

  /** exit's loop passes over an entry that is not a child. */
  lemma ExitSkips(ps: seq<Proc>, qs: seq<Proc>, i: int, init: int, n: int)
    requires 0 <= i < |ps| && 0 <= n < |ps| && Exiting(ps, qs, i, init, n) && ps[n].parent != i
    ensures Exiting(ps, qs, i, init, n + 1)
  {
  }

  /** exit's loop hands a child to init, and wakes init if the child is a zombie. */
  lemma ExitMoves(ps: seq<Proc>, before: seq<Proc>, moved: seq<Proc>, qs: seq<Proc>, i: int, init: int, n: int)
    requires 0 <= i < |ps| && 0 <= n < |ps| && Exiting(ps, before, i, init, n) && ps[n].parent == i
    requires moved == before[n := before[n].(parent := init)] && NicesOk(before) && NicesOk(ps)
    requires qs == if before[n].state == ZOMBIE then WakeAll(moved, OnProc(init)) else moved
    ensures Exiting(ps, qs, i, init, n + 1)
  {
    hide LeavesZombie, MinRunnable, Place;
    LeavesMore(ps, i, n);
    if before[n].state == ZOMBIE {
      WakeInRange(moved, OnProc(init));
      if !LeavesZombie(ps, i, n) { MinSame(moved, WakeAll(ps, OnProc(ps[i].parent))); }
    }
  }

  /** The least vruntime depends on states and vruntimes only. */
  lemma {:induction false} MinSame(ps: seq<Proc>, qs: seq<Proc>)
    requires |ps| == |qs| && forall j | 0 <= j < |ps| :: ps[j].state == qs[j].state && ps[j].vruntime == qs[j].vruntime
    ensures MinRunnable(ps) == MinRunnable(qs)
  {
    if ps != [] { MinSame(ps[..|ps| - 1], qs[..|qs| - 1]); }
  }

  // ----- wait -----

  predicate ZombieChild(ps: seq<Proc>, i: int, j: int)
    requires 0 <= j < |ps|
  {
    ps[j].parent == i && ps[j].state == ZOMBIE
  }

  function Reaped(p: Proc): Proc { p.(state := UNUSED, pid := 0, parent := -1, killed := false) }

  datatype WaitResult = Reap(j: int, pid: int) | NoChildren | Slept

  /** One scan of wait by process i: it reaps its first zombie child, or fails, or goes to sleep. */
  ghost predicate Waited(ps: seq<Proc>, qs: seq<Proc>, i: int, r: WaitResult)
    requires 0 <= i < |ps|
  {
    match r
    case Reap(j, pid) =>
      && 0 <= j < |ps| && ZombieChild(ps, i, j) && pid == ps[j].pid && qs == ps[j := Reaped(ps[j])]
      && (forall k | 0 <= k < j :: !ZombieChild(ps, i, k))
    case NoChildren =>
      && qs == ps && (forall k | 0 <= k < |ps| :: !ZombieChild(ps, i, k))
      && ((forall k | 0 <= k < |ps| :: ps[k].parent != i) || ps[i].killed)
    case Slept =>
      && qs == ps[i := ps[i].(state := SLEEPING, chan := OnProc(i))] && !ps[i].killed
      && (forall k | 0 <= k < |ps| :: !ZombieChild(ps, i, k))
      && (exists k :: 0 <= k < |ps| && ps[k].parent == i)
  }

  // ----- kill, allocproc -----

  function Killed(p: Proc): Proc {
    p.(killed := true, state := if p.state == SLEEPING then RUNNABLE else p.state)
  }

  ghost predicate DidKill(ps: seq<Proc>, qs: seq<Proc>, pid: int, ok: bool) {
    if ok then
      exists k :: 0 <= k < |ps| && ps[k].pid == pid && (forall j | 0 <= j < k :: ps[j].pid != pid)
                  && qs == ps[k := Killed(ps[k])]
    else qs == ps && forall j | 0 <= j < |ps| :: ps[j].pid != pid
  }

  function Fresh(p: Proc, pid: int): Proc {
    p.(state := EMBRYO, pid := pid, nice := 20, runtime := 0, vruntime := 0, slice := 0)
  }

  // ----- the scheduler's choice and the timer's charge -----

  function TotalWeight(ps: seq<Proc>): (t: int)
    requires forall i | 0 <= i < |ps| :: 0 <= ps[i].nice < 40
    ensures 0 <= t <= |ps| * 88761
    ensures t == 0 <==> forall i | 0 <= i < |ps| :: ps[i].state != RUNNABLE
  {
    if ps == [] then 0
    else
      var n := |ps| - 1;
      assert forall i | 0 <= i < n :: ps[i] == ps[..n][i];
      TotalWeight(ps[..n]) + (if ps[n].state == RUNNABLE then Weight(ps[n].nice) else 0)
  }

  /** The total is a sum: a runnable process adds its weight, any other nothing. */
  lemma TotalOfOne(p: Proc)
    requires 0 <= p.nice < 40
    ensures TotalWeight([p]) == if p.state == RUNNABLE then Weight(p.nice) else 0
  {
    assert [p][..0] == [];
  }

  lemma {:induction false} TotalIsSum(ps: seq<Proc>, qs: seq<Proc>)
    requires (forall i | 0 <= i < |ps| :: 0 <= ps[i].nice < 40) && forall i | 0 <= i < |qs| :: 0 <= qs[i].nice < 40
    ensures TotalWeight(ps + qs) == TotalWeight(ps) + TotalWeight(qs)
  {
    hide Weight;
    if qs == [] {
      assert ps + qs == ps;
    } else {
      var n := |qs| - 1;
      assert (ps + qs)[..|ps| + n] == ps + qs[..n];
      TotalIsSum(ps, qs[..n]);
    }
  }

  /** The process the scheduler picks: the first of those with the least vruntime below ~0. */
  predicate Picks(ps: seq<Proc>, k: int) {
    if k == -1 then forall i | 0 <= i < |ps| && ps[i].state == RUNNABLE :: ps[i].vruntime >= UINT - 1
    else
      && 0 <= k < |ps| && ps[k].state == RUNNABLE && ps[k].vruntime < UINT - 1
      && (forall i | 0 <= i < |ps| && ps[i].state == RUNNABLE :: ps[k].vruntime <= ps[i].vruntime)
      && (forall i | 0 <= i < k && ps[i].state == RUNNABLE :: ps[k].vruntime < ps[i].vruntime)
  }

  function Slice(nice: int, total: int): int
    requires 0 <= nice < 40 && 0 < total
  {
    (10 * 1000 * Weight(nice) + total - 1) / total
  }

  lemma DivBounds(a: int, t: int, c: int)
    requires 0 < t <= a < (c + 1) * t
    ensures 1 <= a / t <= c
  {
    var q := a / t;
    assert a == q * t + a % t;
    MulMono(q, 0, t);
    MulMono(c + 1, q, t);
  }

  lemma MulMono(x: int, y: int, t: int)
    requires 0 < t
    ensures x <= y ==> x * t <= y * t
  {
  }

  /** The time_slice stored for a picked process is between one and ten thousand.  (It does not
      bound a turn: trap yields at every tick whatever is left of it.) */
  lemma SliceInRange(ps: seq<Proc>, k: int)
    requires (forall i | 0 <= i < |ps| :: 0 <= ps[i].nice < 40) && 0 <= k < |ps| && ps[k].state == RUNNABLE
    ensures 0 < TotalWeight(ps) && 1 <= Slice(ps[k].nice, TotalWeight(ps)) <= 10000
  {
    hide TotalWeight, Weight;
    TotalCovers(ps, k);
    var t, w := TotalWeight(ps), Weight(ps[k].nice);
    DivBounds(10000 * w + t - 1, t, 10000);
  }

  lemma {:induction false} TotalCovers(ps: seq<Proc>, k: int)
    requires (forall i | 0 <= i < |ps| :: 0 <= ps[i].nice < 40) && 0 <= k < |ps| && ps[k].state == RUNNABLE
    ensures Weight(ps[k].nice) <= TotalWeight(ps)
  {
    hide Weight;
    var n := |ps| - 1;
    if k < n {
      assert forall i | 0 <= i < n :: ps[i] == ps[..n][i];
      TotalCovers(ps[..n], k);
    }
  }

  /** The accounting of one timer tick for the running process, in 32-bit arithmetic. */
  function Charged(p: Proc): Proc
    requires 0 <= p.nice < 40
  {
    p.(runtime := (p.runtime + 1000) % UINT, vruntime := (p.vruntime + Delta(p.nice)) % UINT,
      slice := (p.slice - 1) % UINT)
  }

  /** The running process at its next yield after a timer interrupt.  With the slice used up it
      yields inside the accounting, and once more at the end of the trap when it runs again. */
  function Ticked(p: Proc): Proc
    requires 0 <= p.nice < 40
  {
    Charged(p).(state := RUNNABLE)
  }

  predicate Expires(p: Proc) { (p.slice - 1) % UINT == 0 }

  /** A slice of one tick, which is what makes trap yield twice, is what a process gets exactly when
      its weight is at most a ten-thousandth of the total. */
  lemma SliceIsOneIff(ps: seq<Proc>, k: int)
    requires (forall i | 0 <= i < |ps| :: 0 <= ps[i].nice < 40) && 0 <= k < |ps| && ps[k].state == RUNNABLE
    ensures 0 < TotalWeight(ps)
    ensures Expires(ps[k].(slice := Slice(ps[k].nice, TotalWeight(ps))))
      <==> 10000 * Weight(ps[k].nice) <= TotalWeight(ps)
  {
    hide TotalWeight, Weight;
    SliceInRange(ps, k);
    CeilIsOne(10000 * Weight(ps[k].nice), TotalWeight(ps));
  }

  lemma CeilIsOne(a: int, t: int)
    requires 0 < t && 0 < a
    ensures (a + t - 1) / t == 1 <==> a <= t
  {
    var q := (a + t - 1) / t;
    assert a + t - 1 == q * t + (a + t - 1) % t;
    MulMono(2, q, t);
    MulMono(q, 0, t);
  }

  lemma CeilBounds(a: int, t: int)
    requires 0 < t
    ensures var q := (a + t - 1) / t; (q - 1) * t < a <= q * t
  {
    var q := (a + t - 1) / t;
    assert a + t - 1 == q * t + (a + t - 1) % t;
    assert (q - 1) * t == q * t - t;
  }

  /** Process k is running, with its time slice. */
  ghost predicate Scheduled(ps: seq<Proc>, qs: seq<Proc>, k: int) {
    && NicesOk(ps) && 0 <= k < |ps| && TotalWeight(ps) > 0
    && qs == ps[k := ps[k].(state := RUNNING, slice := Slice(ps[k].nice, TotalWeight(ps)))]
  }

  lemma NoneRunnable(ps: seq<Proc>)
    requires NicesOk(ps) && TotalWeight(ps) == 0
    ensures forall i | 0 <= i < |ps| :: ps[i].state != RUNNABLE
  {
  }

  // ----- the scans -----

  class Table {
    const proc: array<Proc>
    var nextpid: int

    constructor (n: nat)
      ensures proc.Length == n && fresh(proc) && nextpid == 1
      ensures forall i | 0 <= i < n :: proc[i] == Proc(UNUSED, 0, -1, NoChan, false, 0, 0, 0, 0)
    {
      proc := new Proc[n](_ => Proc(UNUSED, 0, -1, NoChan, false, 0, 0, 0, 0));
      nextpid := 1;
    }

    method Wakeup1(c: Chan)
      requires NicesOk(proc[..])
      modifies proc
      ensures proc[..] == WakeAll(old(proc[..]), c)
      ensures forall j | 0 <= j < proc.Length ::
        proc[j] == if old(proc[j]).state == SLEEPING && old(proc[j]).chan == c
                   then old(proc[j]).(state := RUNNABLE, vruntime := proc[j].vruntime) else old(proc[j])
    {
      hide MinRunnable, Weight;
      ghost var ps := proc[..];
      var min_vrun, is_runna := 0, false;
      for i := 0 to proc.Length
        invariant is_runna <==> exists j :: 0 <= j < i && ps[j].state == RUNNABLE
        invariant is_runna ==> exists j :: 0 <= j < i && ps[j].state == RUNNABLE && ps[j].vruntime == min_vrun
        invariant !is_runna ==> min_vrun == 0
      {
        if proc[i].state == RUNNABLE {
          is_runna := true;
          min_vrun := proc[i].vruntime;
        }
      }
      if is_runna {
        for i := 0 to proc.Length
          invariant exists j :: 0 <= j < |ps| && ps[j].state == RUNNABLE && ps[j].vruntime == min_vrun
          invariant forall j | 0 <= j < i && ps[j].state == RUNNABLE :: min_vrun <= ps[j].vruntime
        {
          if proc[i].state == RUNNABLE {
            if min_vrun > proc[i].vruntime { min_vrun := proc[i].vruntime; }
          }
        }
      }
      MinIsLeast(ps);
      LeastUnique(ps, MinRunnable(ps), if is_runna then Least(min_vrun) else NoLeast);
      for i := 0 to proc.Length
        invariant forall j | 0 <= j < i :: proc[j] == Woken(ps[j], c, MinRunnable(ps))
        invariant forall j | i <= j < proc.Length :: proc[j] == ps[j]
      {
        if proc[i].state == SLEEPING && proc[i].chan == c {
          var vrun_per_tick := 1000 * 1024 / Weight(proc[i].nice);
          var v := if AsInt(min_vrun) < vrun_per_tick then 0 else AsInt(min_vrun) - vrun_per_tick;
          proc[i] := proc[i].(vruntime := v, state := RUNNABLE);
        }
      }
    }

    method Exit(i: int, init: int)
      requires 0 <= i < proc.Length && 0 <= init < proc.Length && NicesOk(proc[..])
      requires proc[i].state == RUNNING && i != init
      modifies proc
      ensures Exited(old(proc[..]), proc[..], i, init)
      ensures proc[i].state == ZOMBIE
      ensures forall j | 0 <= j < proc.Length ::
        proc[j].parent == if old(proc[j]).parent == i then init else old(proc[j]).parent
      ensures forall j | 0 <= j < proc.Length && j != i && old(proc[j]).state == SLEEPING
                         && old(proc[j]).chan == OnProc(old(proc[i]).parent) ::
        proc[j].state == RUNNABLE && 0 <= proc[j].nice < 40
        && proc[j].vruntime == Place(MinRunnable(old(proc[..])), proc[j].nice)
    {
      hide LeavesZombie, MinRunnable, Woken, Place;
      ghost var ps := proc[..];
      Wakeup1(OnProc(proc[i].parent));
      ExitStarts(ps, proc[..], i, init);
      var j := 0;
      while j < proc.Length
        invariant 0 <= j <= proc.Length && Exiting(ps, proc[..], i, init, j)
      {
        if proc[j].parent == i {
          ghost var before := proc[..];
          var zombie := proc[j].state == ZOMBIE;
          proc[j] := proc[j].(parent := init);
          ghost var moved := proc[..];
          if zombie { Wakeup1(OnProc(init)); }
          ExitMoves(ps, before, moved, proc[..], i, init, j);
        } else {
          ExitSkips(ps, proc[..], i, init, j);
        }
        j := j + 1;
      }
      proc[i] := proc[i].(state := ZOMBIE);
      ParentPlaced(ps, i, init);
    }

    method WaitScan(i: int) returns (r: WaitResult)
      requires 0 <= i < proc.Length && proc[i].state == RUNNING
      modifies proc
      ensures Waited(old(proc[..]), proc[..], i, r)
      ensures r.Reap? ==>
        0 <= r.j < proc.Length && r.pid == old(proc[r.j]).pid
        && proc[r.j] == old(proc[r.j]).(state := UNUSED, pid := 0, parent := -1, killed := false)
      ensures r.Slept? ==> proc[i].state == SLEEPING && proc[i].chan == OnProc(i)
      ensures r.Reap? <==> exists k :: 0 <= k < proc.Length && ZombieChild(old(proc[..]), i, k)
      ensures !r.Reap? ==>
        (r.NoChildren? <==> old(proc[i]).killed || forall k | 0 <= k < proc.Length :: old(proc[k]).parent != i)
    {
      var havekids := false;
      var j := 0;
      while j < proc.Length
        invariant 0 <= j <= proc.Length && proc[..] == old(proc[..])
        invariant havekids <==> exists k :: 0 <= k < j && proc[..][k].parent == i
        invariant forall k | 0 <= k < j :: !ZombieChild(proc[..], i, k)
      {
        if proc[j].parent == i {
          havekids := true;
          if proc[j].state == ZOMBIE {
            var pid := proc[j].pid;
            assert ZombieChild(old(proc[..]), i, j);
            proc[j] := Reaped(proc[j]);
            return Reap(j, pid);
          }
        }
        j := j + 1;
      }
      if !havekids || proc[i].killed { return NoChildren; }
      proc[i] := proc[i].(chan := OnProc(i), state := SLEEPING);
      return Slept;
    }

    method Kill(pid: int) returns (ok: bool)
      modifies proc
      ensures DidKill(old(proc[..]), proc[..], pid, ok)
      ensures ok ==>
        exists k :: 0 <= k < proc.Length && proc[k].pid == pid && proc[k].killed && proc[k].state != SLEEPING
      ensures forall k | 0 <= k < proc.Length && proc[k] != old(proc[k]) ::
        proc[k] == old(proc[k]).(killed := true, state := proc[k].state)
        && (proc[k].state == old(proc[k]).state || (old(proc[k]).state == SLEEPING && proc[k].state == RUNNABLE))
    {
      for i := 0 to proc.Length
        invariant proc[..] == old(proc[..]) && forall j | 0 <= j < i :: proc[j].pid != pid
      {
        if proc[i].pid == pid {
          proc[i] := Killed(proc[i]);
          return true;
        }
      }
      return false;
    }

    /** allocproc up to the release of the lock: the first unused entry, or -1. */
    method AllocProc() returns (k: int)
      modifies proc, this`nextpid
      ensures k == -1 ==> proc[..] == old(proc[..]) && nextpid == old(nextpid)
      ensures k == -1 ==> forall j | 0 <= j < proc.Length :: proc[j].state != UNUSED
      ensures k != -1 ==> 0 <= k < proc.Length && old(proc[..])[k].state == UNUSED && nextpid == old(nextpid) + 1
      ensures k != -1 ==> proc[..] == old(proc[..])[k := Fresh(old(proc[..])[k], old(nextpid))]
      ensures k != -1 ==> forall j | 0 <= j < k :: old(proc[..])[j].state != UNUSED
      ensures k != -1 ==>
        && proc[k].state == EMBRYO && proc[k].pid == old(nextpid) && proc[k].nice == 20
        && proc[k].runtime == proc[k].vruntime == proc[k].slice == 0
        && proc[k].killed == old(proc[..])[k].killed && proc[k].parent == old(proc[..])[k].parent
    {
      for i := 0 to proc.Length
        invariant proc[..] == old(proc[..]) && nextpid == old(nextpid)
        invariant forall j | 0 <= j < i :: proc[j].state != UNUSED
      {
        if proc[i].state == UNUSED {
          proc[i] := Fresh(proc[i], nextpid);
          nextpid := nextpid + 1;
          return i;
        }
      }
      return -1;
    }

    method SetNice(pid: int, value: int) returns (r: int)
      modifies proc
      ensures r == 0 <==> 0 <= value < 40 && exists k :: 0 <= k < proc.Length && old(proc[..])[k].pid == pid
      ensures NicesOk(old(proc[..])) ==> NicesOk(proc[..])
      ensures r == 0 || (r == -1 && proc[..] == old(proc[..]))
      ensures r == 0 ==>
        exists k :: 0 <= k < proc.Length && proc[k].pid == pid && (forall j | 0 <= j < k :: proc[j].pid != pid)
                    && proc[..] == old(proc[..])[k := old(proc[..])[k].(nice := value)]
    {
      if value < 0 || value > 39 { return -1; }
      for i := 0 to proc.Length
        invariant proc[..] == old(proc[..]) && forall j | 0 <= j < i :: proc[..][j].pid != pid
      {
        if proc[i].pid == pid {
          proc[i] := proc[i].(nice := value);
          return 0;
        }
      }
      return -1;
    }

    /** The scheduler's first scan. */
    method SumWeights() returns (total_weight: int)
      requires NicesOk(proc[..])
      ensures total_weight == TotalWeight(proc[..])
    {
      hide Weight;
      ghost var ps := proc[..];
      total_weight := 0;
      for i := 0 to proc.Length
        invariant total_weight == TotalWeight(ps[..i])
      {
        assert ps[..i + 1][..i] == ps[..i];
        if proc[i].state == RUNNABLE { total_weight := total_weight + Weight(proc[i].nice); }
      }
      assert ps[..|ps|] == ps;
    }

    /** The scheduler's second scan. */
    method PickLeast() returns (k: int)
      ensures Picks(proc[..], k)
      ensures k != -1 ==> forall i | 0 <= i < proc.Length && proc[i].state == RUNNABLE ::
        if i < k then proc[i].vruntime > proc[k].vruntime else proc[i].vruntime >= proc[k].vruntime
    {
      var min_vruntime := UINT - 1;
      k := -1;
      for i := 0 to proc.Length
        invariant k == -1 ==> min_vruntime == UINT - 1
        invariant k != -1 ==> 0 <= k < i && proc[k].state == RUNNABLE && proc[k].vruntime == min_vruntime < UINT - 1
        invariant forall j | 0 <= j < i && proc[j].state == RUNNABLE :: min_vruntime <= proc[j].vruntime
        invariant forall j | 0 <= j < k && proc[j].state == RUNNABLE :: min_vruntime < proc[j].vruntime
      {
        if proc[i].state == RUNNABLE && proc[i].vruntime < min_vruntime {
          min_vruntime := proc[i].vruntime;
          k := i;
        }
      }
    }

    /** One pass of the scheduler: the process it switches to, or -1 to look again. */
    method Schedule() returns (k: int)
      requires NicesOk(proc[..])
      modifies proc
      ensures Picks(old(proc[..]), k) && (k == -1 ==> proc[..] == old(proc[..]))
      ensures k != -1 ==> Scheduled(old(proc[..]), proc[..], k)
      ensures k != -1 ==> proc[k].state == RUNNING
      ensures k != -1 ==>
        (proc[k].slice - 1) * TotalWeight(old(proc[..])) < 10000 * Weight(proc[k].nice)
        <= proc[k].slice * TotalWeight(old(proc[..]))
    {
      hide TotalWeight, Weight;
      var total_weight := SumWeights();
      if total_weight == 0 {
        NoneRunnable(proc[..]);
        return -1;
      }
      k := PickLeast();
      if k != -1 {
        SliceInRange(proc[..], k);
        CeilBounds(10000 * Weight(proc[k].nice), total_weight);
        proc[k] := proc[k].(slice := (10 * 1000 * Weight(proc[k].nice) + total_weight - 1) / total_weight);
        proc[k] := proc[k].(state := RUNNING);
      }
    }

    /** The timer interrupt of the running process k, up to its first yield. */
    method Tick(k: int) returns (expired: bool)
      requires 0 <= k < proc.Length && proc[k].state == RUNNING && 0 <= proc[k].nice < 40
      modifies proc
      ensures proc[..] == old(proc[..])[k := Ticked(old(proc[..])[k])] && expired == Expires(old(proc[..])[k])
      ensures proc[k] == old(proc[k]).(state := RUNNABLE, runtime := (old(proc[k]).runtime + 1000) % UINT,
                                       vruntime := (old(proc[k]).vruntime + Delta(old(proc[k]).nice)) % UINT,
                                       slice := proc[k].slice)
      ensures proc[k].slice == (old(proc[k]).slice - 1) % UINT
      ensures expired <==> proc[k].slice == 0
    {
      hide Weight;
      var delta_runtime := 1000;
      proc[k] := proc[k].(runtime := (proc[k].runtime + delta_runtime) % UINT);
      proc[k] := proc[k].(vruntime := (proc[k].vruntime + delta_runtime * 1024 / Weight(proc[k].nice)) % UINT);
      proc[k] := proc[k].(slice := (proc[k].slice - 1) % UINT);
      expired := proc[k].slice <= 0;
      if expired { proc[k] := proc[k].(slice := 0); }
      proc[k] := proc[k].(state := RUNNABLE);
    }
  }
}
