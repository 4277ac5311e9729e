/** The weighted scheduler of proc.c and trap.c on one CPU, with a fixed set of processes that are
    always ready to run and keep their nice values: who falls behind whom, and by how much. */
module FairScheduling {
  import opened ProcTable
  import opened Params

  /** `cpu` is the running process or -1; `mid` marks processes that yielded inside the
      accounting and owe a second yield; `ticks` counts the ticks charged to each. */
  datatype Sched = Sched(ps: seq<Proc>, cpu: int, mid: seq<bool>, ticks: seq<int>)

  datatype Event = Dispatch(k: int) | Tick | Resume

  ghost predicate Shape(s: Sched) {
    && |s.mid| == |s.ticks| == |s.ps| && -1 <= s.cpu < |s.ps| && NicesOk(s.ps)
    && forall i | 0 <= i < |s.ps| :: s.ps[i].state == if i == s.cpu then RUNNING else RUNNABLE
  }

  /** The timer interrupt, up to the yield that gives up the CPU. */
  function AfterTick(s: Sched): Sched
    requires 0 <= s.cpu < |s.ps| && |s.mid| == |s.ticks| == |s.ps| && 0 <= s.ps[s.cpu].nice < 40
  {
    Sched(s.ps[s.cpu := Ticked(s.ps[s.cpu])], -1, s.mid[s.cpu := Expires(s.ps[s.cpu])],
          s.ticks[s.cpu := s.ticks[s.cpu] + 1])
  }

  ghost predicate Next(s: Sched, t: Sched, e: Event)
    requires Shape(s)
  {
    match e
    case Dispatch(k) => s.cpu == -1 && k != -1 && Picks(s.ps, k) && Scheduled(s.ps, t.ps, k)
      && t == s.(ps := t.ps, cpu := k)
    case Tick => s.cpu != -1 && !s.mid[s.cpu] && t == AfterTick(s)
    case Resume =>
      s.cpu != -1 && s.mid[s.cpu]
      && t == s.(ps := s.ps[s.cpu := s.ps[s.cpu].(state := RUNNABLE)], cpu := -1, mid := s.mid[s.cpu := false])
  }

  /** No vruntime can wrap, or reach ~0, at the next tick. */
  ghost predicate Tame(s: Sched)
    requires Shape(s)
  {
    forall i | 0 <= i < |s.ps| :: s.ps[i].vruntime + Delta(s.ps[i].nice) < UINT - 1
  }

  // ----- the invariant -----

  /** i is at most one charge of its own ahead of j. */
  ghost predicate Close(s: Sched, i: int, j: int)
    requires Shape(s) && 0 <= i < |s.ps| && 0 <= j < |s.ps|
  {
    s.ps[i].vruntime <= s.ps[j].vruntime + Delta(s.ps[i].nice)
  }

  ghost predicate Fair(s: Sched)
    requires Shape(s)
  {
    && (forall i, j | 0 <= i < |s.ps| && 0 <= j < |s.ps| :: Close(s, i, j))
    && (s.cpu != -1 ==> forall j | 0 <= j < |s.ps| :: s.ps[s.cpu].vruntime <= s.ps[j].vruntime)
  }

  /** vruntime is the start value plus what the ticks cost. */
  ghost predicate Booked(s: Sched, v0: int)
    requires Shape(s)
  {
    forall i | 0 <= i < |s.ps| :: s.ticks[i] >= 0 && s.ps[i].vruntime == v0 + s.ticks[i] * Delta(s.ps[i].nice)
  }

  lemma NextKeepsShape(s: Sched, t: Sched, e: Event)
    requires Shape(s) && Next(s, t, e)
    ensures Shape(t) && |t.ps| == |s.ps| && forall i | 0 <= i < |s.ps| :: t.ps[i].nice == s.ps[i].nice
  {
  }

  lemma NextKeepsFair(s: Sched, t: Sched, e: Event)
    requires Shape(s) && Fair(s) && Next(s, t, e) && Tame(s) && Shape(t)
    ensures Fair(t)
  {
    hide Delta, Weight, TotalWeight, Slice;
    forall i, j | 0 <= i < |t.ps| && 0 <= j < |t.ps|
      ensures Close(t, i, j)
    {
      assert Close(s, i, j) && Close(s, j, i);
    }
  }

  lemma NextKeepsBooked(s: Sched, t: Sched, e: Event, v0: int)
    requires Shape(s) && Booked(s, v0) && Next(s, t, e) && Tame(s) && Shape(t)
    ensures Booked(t, v0)
  {
    hide Delta, Weight, TotalWeight, Slice;
    forall i | 0 <= i < |t.ps|
      ensures t.ticks[i] >= 0 && t.ps[i].vruntime == v0 + t.ticks[i] * Delta(t.ps[i].nice)
    {
      if e.Tick? && i == s.cpu {
        var d := Delta(s.ps[i].nice);
        assert (s.ticks[i] + 1) * d == s.ticks[i] * d + d;
      }
    }
  }

  /** In a fair state, a tick keeps fairness if and only if the 32-bit vruntime does not wrap. */
  lemma TickKeepsFairIff(s: Sched)
    requires Shape(s) && Fair(s) && s.cpu != -1 && |s.ps| >= 2
    ensures Shape(AfterTick(s))
    ensures Fair(AfterTick(s)) <==> s.ps[s.cpu].vruntime + Delta(s.ps[s.cpu].nice) < UINT
  {
    hide Delta, Weight;
    var k := s.cpu;
    var t := AfterTick(s);
    if s.ps[k].vruntime + Delta(s.ps[k].nice) < UINT {
      forall i, j | 0 <= i < |t.ps| && 0 <= j < |t.ps|
        ensures Close(t, i, j)
      {
        assert Close(s, i, j) && Close(s, j, i);
      }
    } else {
      var j := if k == 0 then 1 else 0;
      assert !Close(t, j, k);
    }
  }

  // ----- runs -----

  ghost predicate Start(s: Sched, v0: int) {
    Shape(s) && s.cpu == -1 && forall i | 0 <= i < |s.ps| :: s.ps[i].vruntime == v0 && s.ticks[i] == 0 && !s.mid[i]
  }

  ghost predicate IsRun(ss: seq<Sched>, es: seq<Event>, v0: int) {
    && |ss| == |es| + 1 && Start(ss[0], v0)
    && forall n | 0 <= n < |es| :: Shape(ss[n]) && Tame(ss[n]) && Next(ss[n], ss[n + 1], es[n])
  }

  lemma {:induction false} RunIsFair(ss: seq<Sched>, es: seq<Event>, v0: int, n: nat)
    requires IsRun(ss, es, v0) && n < |ss|
    ensures Shape(ss[n]) && Fair(ss[n]) && Booked(ss[n], v0)
    ensures |ss[n].ps| == |ss[0].ps| && forall i | 0 <= i < |ss[0].ps| :: ss[n].ps[i].nice == ss[0].ps[i].nice
  {
    hide Next, Delta;
    if n == 0 {
      forall i, j | 0 <= i < |ss[0].ps| && 0 <= j < |ss[0].ps|
        ensures Close(ss[0], i, j)
      {
      }
    } else {
      RunIsFair(ss, es, v0, n - 1);
      assert Next(ss[n - 1], ss[n - 1 + 1], es[n - 1]);
      NextKeepsShape(ss[n - 1], ss[n], es[n - 1]);
      NextKeepsFair(ss[n - 1], ss[n], es[n - 1]);
      NextKeepsBooked(ss[n - 1], ss[n], es[n - 1], v0);
    }
  }

  /** In every reachable state no process is ahead of another by more than one of its own charges
      of floor(1024000 / weight), and the ticks charged are in proportion to that. */
  lemma WeightedFairness(ss: seq<Sched>, es: seq<Event>, v0: int, n: nat, i: int, j: int)
    requires IsRun(ss, es, v0) && n < |ss| && Shape(ss[n]) && 0 <= i < |ss[n].ps| && 0 <= j < |ss[n].ps|
    ensures var s := ss[n]; var di, dj := 1024000 / Weight(s.ps[i].nice), 1024000 / Weight(s.ps[j].nice);
      && s.ps[i].vruntime <= s.ps[j].vruntime + di
      && s.ticks[i] * di <= s.ticks[j] * dj + di
  {
    RunIsFair(ss, es, v0, n);
    assert Close(ss[n], i, j);
  }

  function Sum(t: seq<int>): int { if t == [] then 0 else Sum(t[..|t| - 1]) + t[|t| - 1] }

  lemma {:induction false} SumBound(t: seq<int>, c: int)
    requires forall i | 0 <= i < |t| :: t[i] <= c
    ensures Sum(t) <= |t| * c
  {
    if t != [] {
      var n := |t| - 1;
      assert forall i | 0 <= i < n :: t[..n][i] == t[i];
      SumBound(t[..n], c);
      assert (n + 1) * c == n * c + c;
    }
  }

  /** The most ticks i can have when j has tj. */
  lemma TicksBound(ti: int, di: int, tj: int, dj: int)
    requires 0 <= tj && 11 <= di && 0 < dj <= 68266 && ti * di <= tj * dj + di
    ensures ti <= 1 + 6206 * tj
  {
    if tj == 0 {
      if ti >= 2 { MulMono(2, ti, di); }
    } else if ti > 1 + 6206 * tj {
      MulMono(2 + 6206 * tj, ti, di);
      MulMono(11, di, 2 + 6206 * tj);
      MulMono(dj, 68266, tj);
    }
  }

  /** No starvation: after T ticks among n processes every process has been charged enough that
      T <= n * (1 + 6206 * ticks); in particular each runs within the first n + 1 ticks. */
  lemma NoStarvation(ss: seq<Sched>, es: seq<Event>, v0: int, n: nat, j: int)
    requires IsRun(ss, es, v0) && n < |ss| && Shape(ss[n]) && 0 <= j < |ss[n].ps|
    ensures Sum(ss[n].ticks) <= |ss[n].ps| * (1 + 6206 * ss[n].ticks[j])
    ensures Sum(ss[n].ticks) > |ss[n].ps| ==> ss[n].ticks[j] >= 1
  {
    RunIsFair(ss, es, v0, n);
    var s := ss[n];
    forall i | 0 <= i < |s.ps|
      ensures s.ticks[i] <= 1 + 6206 * s.ticks[j]
    {
      WeightedFairness(ss, es, v0, n, i, j);
      TicksBound(s.ticks[i], Delta(s.ps[i].nice), s.ticks[j], Delta(s.ps[j].nice));
    }
    SumBound(s.ticks, 1 + 6206 * s.ticks[j]);
  }

  // ----- turns -----

  /** Whatever time slice was stored, a turn is one step: the CPU is given up again right after the
      dispatch, with at most one tick charged, to the process dispatched. */
  lemma OneTickPerTurn(ss: seq<Sched>, es: seq<Event>, v0: int, n: nat)
    requires IsRun(ss, es, v0) && n + 1 < |es| && es[n].Dispatch?
    ensures !es[n + 1].Dispatch? && ss[n + 2].cpu == -1 && 0 <= es[n].k < |ss[n].ticks|
    ensures ss[n + 2].ticks == ss[n].ticks || ss[n + 2].ticks == ss[n].ticks[es[n].k := ss[n].ticks[es[n].k] + 1]
  {
    hide NicesOk, TotalWeight, Weight, Delta, Slice, Ticked;
    assert Next(ss[n], ss[n + 1], es[n]) && Next(ss[n + 1], ss[n + 1 + 1], es[n + 1]);
  }

  /** A charged turn owes a second yield if and only if the process has at most a ten-thousandth of
      the weight that is runnable when it is dispatched. */
  lemma TurnOwesYieldIff(s: Sched, t: Sched, u: Sched, k: int)
    requires Shape(s) && Next(s, t, Dispatch(k)) && Shape(t) && Next(t, u, Tick)
    ensures 0 <= k < |s.ps| == |u.mid| && forall i | 0 <= i < |s.ps| :: 0 <= s.ps[i].nice < 40
    ensures u.mid[k] <==> 10000 * Weight(s.ps[k].nice) <= TotalWeight(s.ps)
  {
    hide TotalWeight, Weight, Delta;
    SliceIsOneIff(s.ps, k);
  }

  // ----- second yields do not crowd out ticks -----

  function Owed(mid: seq<bool>): int {
    if mid == [] then 0 else Owed(mid[..|mid| - 1]) + (if mid[|mid| - 1] then 1 else 0)
  }

  lemma {:induction false} OwedUpdate(mid: seq<bool>, k: int, b: bool)
    requires 0 <= k < |mid|
    ensures Owed(mid[k := b]) == Owed(mid) + (if b then 1 else 0) - (if mid[k] then 1 else 0)
  {
    var n := |mid| - 1;
    if k == n { assert mid[k := b][..n] == mid[..n]; } else {
      assert mid[k := b][..n] == mid[..n][k := b];
      OwedUpdate(mid[..n], k, b);
    }
  }

  lemma {:induction false} SumUpdate(t: seq<int>, k: int, x: int)
    requires 0 <= k < |t|
    ensures Sum(t[k := x]) == Sum(t) + x - t[k]
  {
    var n := |t| - 1;
    if k == n { assert t[k := x][..n] == t[..n]; } else {
      assert t[k := x][..n] == t[..n][k := x];
      SumUpdate(t[..n], k, x);
    }
  }

  lemma {:induction false} StartSums(t: seq<int>, mid: seq<bool>)
    requires |t| == |mid| && forall i | 0 <= i < |t| :: t[i] == 0 && !mid[i]
    ensures Sum(t) == 0 && Owed(mid) == 0
  {
    if t != [] { StartSums(t[..|t| - 1], mid[..|t| - 1]); }
  }

  /** A run cannot go on without charging ticks: among its first n steps at least a quarter, but for
      one, are charged ticks, however often trap yields a second time. */
  lemma {:induction false} TicksProgress(ss: seq<Sched>, es: seq<Event>, v0: int, n: nat)
    requires IsRun(ss, es, v0) && n < |ss| && Shape(ss[n])
    ensures 0 <= Owed(ss[n].mid)
    ensures n + 2 * Owed(ss[n].mid) <= 4 * Sum(ss[n].ticks) + (if ss[n].cpu != -1 then 1 else 0)
    ensures n <= 4 * Sum(ss[n].ticks) + 1
  {
    hide Picks, Scheduled, Expires, Ticked, NicesOk;
    if n == 0 {
      StartSums(ss[0].ticks, ss[0].mid);
    } else {
      var s, t := ss[n - 1], ss[n - 1 + 1];
      assert Next(s, t, es[n - 1]);
      TicksProgress(ss, es, v0, n - 1);
      OwedNonneg(t.mid);
      match es[n - 1] {
        case Dispatch(k) => {}
        case Tick => {
          SumUpdate(s.ticks, s.cpu, s.ticks[s.cpu] + 1);
          OwedUpdate(s.mid, s.cpu, Expires(s.ps[s.cpu]));
        }
        case Resume => OwedUpdate(s.mid, s.cpu, false);
      }
    }
  }

  lemma {:induction false} OwedNonneg(mid: seq<bool>)
    ensures 0 <= Owed(mid)
  {
    if mid != [] { OwedNonneg(mid[..|mid| - 1]); }
  }
}
