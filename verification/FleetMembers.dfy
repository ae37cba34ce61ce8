/** The executions of FlowState are members of a fleet: what one turn asks of the shared budget. */
module FleetMembers {
  import opened Options
  import opened BudgetState
  import opened BudgetRuns
  import opened FlowState
  import opened Decisions
  import Runs
  import Fleet

  /** A turn that has planned a retry: it has asked for the end of its delay, and sleeps to the slot that
      the budget has granted for it. */
  ghost predicate KeptPlan(cfg: Config, before: State, after: Trace, t: Turn, key: string)
    requires ValidConfig(cfg)
  {
    && HasDelay(t)
    && var (r, delay) := (SlotFor(cfg, before.book, key, t), t.backoff.ticks);
       && after.ops == before.trace.ops + [Reserve(key, t.plannedAt, t.plannedAt + delay)]
       && after.answers == before.trace.answers + [Granted(r)]
       && after.sleeps == before.trace.sleeps + [Sleep(t.recheckedAt, Fleet.TotalDelay(t.plannedAt, delay, r))]
       && t.plannedAt + Fleet.TotalDelay(t.plannedAt, delay, r) == r.scheduledAt
  }

  /** A turn that has planned a retry and given it up again. */
  ghost predicate GaveUp(cfg: Config, before: State, after: Trace, t: Turn, key: string)
    requires ValidConfig(cfg)
  {
    && HasDelay(t)
    && var (r, delay) := (SlotFor(cfg, before.book, key, t), t.backoff.ticks);
       && after.ops == before.trace.ops + [Reserve(key, t.plannedAt, t.plannedAt + delay), Release(r, t.releasedAt)]
       && after.answers == before.trace.answers + [Granted(r), Done]
  }

  /** Every turn of an execution is a member's doing: a turn that goes on has planned one retry, for the
      end of its own delay, whose sleep would end at its slot had it begun when it was planned, and drifts
      by as much as the clock moved in between; any other turn has planned none, or given it up again. */
  lemma TurnsArePlans(cfg: Config, p: Policy, s: State, t: Turn, key: string)
    requires ValidConfig(cfg) && p.budgetKey == Some(key)
    ensures var (s', progress) := TakeTurn(cfg, p, s, t);
            if progress.Running? then KeptPlan(cfg, s, s'.trace, t, key)
            else
              || (s'.trace.ops == s.trace.ops && s'.trace.answers == s.trace.answers)
              || GaveUp(cfg, s, s'.trace, t, key)
  {
    hide TakeTurn, EventsOf, InTime, FailsWith, GoesOn, SlotFor;
    TurnMeans(cfg, p, s, t);
    var progress := TakeTurn(cfg, p, s, t).1;
    if HasDelay(t) {
      var r := SlotFor(cfg, s.book, key, t);
      assert DueAt(cfg, p, s, t) == r.scheduledAt;
      var op := Reserve(key, t.plannedAt, t.plannedAt + t.backoff.ticks);
      assert [op] + [Release(r, t.releasedAt)] == [op, Release(r, t.releasedAt)];
      assert [Granted(r)] + [Done] == [Granted(r), Done];
    }
    if !progress.Running? {
      Runs.NotRunning(cfg, p, s, t, progress);
    }
  }
}
