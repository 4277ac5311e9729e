/** The file layer on top of the log: operations that log what one chunk of filewrite logs keep to
    the budget that the log relies on. */
module FileLog {
  import opened Params
  import opened LogMachine
  import opened LogBudget
  import opened SetFacts

  /** What every operation may log, by its number; for filewrite, the set of blocks of its chunk. */
  type Plan = map<nat, set<int>>

  /** Every plan is within what Filewrite guarantees for each of its operations. */
  ghost predicate WithinBudget(plan: Plan) { forall id | id in plan :: |plan[id]| <= MAXOPBLOCKS }

  /** Operation e.k writes a block of its plan. */
  predicate Follows(plan: Plan, a: Spec, e: Event) {
    e.Write? && e.k < |a.ops| ==> a.ops[e.k].id in plan && e.b in plan[a.ops[e.k].id]
  }

  /** Every write of the run is one that its operation planned. */
  ghost predicate PlannedRun(plan: Plan, g: Geometry, s: State, es: seq<Event>) {
    es == [] ||
    (&& PlannedRun(plan, g, s, es[..|es| - 1])
     && Run(g, s, es[..|es| - 1]).Running?
     && Follows(plan, Run(g, s, es[..|es| - 1]).s.a, es[|es| - 1]))
  }

  /** The operations have logged planned blocks only. */
  ghost predicate OnPlan(plan: Plan, a: Spec) {
    forall i | 0 <= i < |a.ops| && a.ops[i].blocks != {} :: a.ops[i].id in plan && a.ops[i].blocks <= plan[a.ops[i].id]
  }

  lemma StepKeepsPlan(plan: Plan, g: Geometry, s: State, e: Event)
    requires OnPlan(plan, s.a) && Follows(plan, s.a, e) && Joint(g, s, e).Running?
    ensures OnPlan(plan, Joint(g, s, e).s.a)
  {
    hide CommitStep, LogWrite, GetHeader, CanGet, Bread;
  }

  /** The budgets of the file layer are the ones the log needs: a run whose operations log what
      their chunks log is disciplined, so its reservations hold. */
  lemma {:induction false} PlannedIsDisciplined(plan: Plan, g: Geometry, d0: Disk, s0: State, es: seq<Event>)
    requires WithinBudget(plan) && Init(g, d0, s0) && PlannedRun(plan, g, s0, es)
    ensures DisciplinedRun(g, s0, es) && (Run(g, s0, es).Running? ==> OnPlan(plan, Run(g, s0, es).s.a))
  {
    hide Joint;
    if es != [] {
      var n := |es| - 1;
      PlannedIsDisciplined(plan, g, d0, s0, es[..n]);
      var s, e := Run(g, s0, es[..n]).s, es[n];
      if e.Write? && e.k < |s.a.ops| {
        var op := s.a.ops[e.k];
        SubsetBound(op.blocks + {e.b}, plan[op.id]);
      }
      if Joint(g, s, e).Running? { StepKeepsPlan(plan, g, s, e); }
    }
  }

  /** Together: filewrite's operations on a log of more than LOGSIZE blocks never run into the panic
      of log_write with a block that the header does not have yet. */
  lemma PlannedNeverPanics(plan: Plan, g: Geometry, d0: Disk, s0: State, es: seq<Event>, e: Event)
    requires WithinBudget(plan) && Init(g, d0, s0) && LOGSIZE < g.size && PlannedRun(plan, g, s0, es + [e])
    requires Run(g, s0, es).Running? && e.Write? && e.k < |Run(g, s0, es).s.a.ops| && Home(g, e.b)
    requires e.b in Run(g, s0, es).s.m.held
    ensures var m := Run(g, s0, es).s.m; LogWrite(g, m, e.b, e.data).Panic? ==> e.b in m.lh && |m.lh| == LOGSIZE
  {
    assert (es + [e])[..|es|] == es;
    PlannedIsDisciplined(plan, g, d0, s0, es);
    PlannedIsDisciplined(plan, g, d0, s0, es + [e]);
    BigLogPanicsIffFull(g, d0, s0, es, e.k, e.b, e.data);
  }
}
