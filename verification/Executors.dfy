/** Two drivers of a flow: the loop of a direct call, and the wrapper of a decorated function with its
statistics. */
module Executors {
  import opened Options
  import opened BudgetState
  import opened FlowState
  import opened Flow
  import opened EntryPoints
  import Budget
  import Rounding

  ghost predicate Usable(policy: Policy, budget: Budget.RetryBudget?)
    reads budget
  {
    && ValidPolicy(policy)
    && (budget == null <==> policy.budgetKey.None?)
    && (budget != null ==> budget.Valid())
  }

  ghost function ConfigOf(budget: Budget.RetryBudget?): (cfg: Config)
    requires budget != null ==> ValidConfig(budget.config)
    ensures ValidConfig(cfg)
  {
    Rounding.ExactIsSound(1);
    if budget == null then NO_BUDGET else budget.config
  }

  ghost function BookOf(budget: Budget.RetryBudget?): Book
    reads budget
  {
    if budget == null then EMPTY_BOOK else budget.Contents()
  }

  /** Every attempt of a function call that does not raise produces a value. */
  predicate Returns(script: seq<Turn>) {
    forall i :: 0 <= i < |script| && script[i].outcome.Returned? ==> script[i].outcome.hasValue
  }

  // ---------------------------------------------------------------- the direct call

  /** One round of the loop up to its decision: count the attempt, announce it, call the function. */
  method CallOnce(flow: RetryFlow, t: Turn) returns (decision: Decision)
    requires flow.Valid() && (t.outcome.Returned? ==> t.outcome.hasValue)
    modifies flow, flow.runtime, flow.budget
    ensures flow.Valid() && (flow.Contents(), decision) == Attempt(flow.Cfg(), flow.policy, old(flow.Contents()), t)
    ensures decision.Wait? && decision.plan.reservation.Some? ==> flow.budget != null
  {
    hide FlowState.AfterException, FlowState.AfterValue, ValidPolicy, ValidConfig;
    var _ := flow.NextAttempt();
    var error := flow.EnterAttempt(t);
    if error.Some? {
      return Propagate(error.value);
    }
    match t.outcome {
      case Aborted(e) => decision := Propagate(e);
      case Threw(e) => decision := flow.AfterException(t, e);
      case Returned(value, _) => decision := flow.AfterValue(t, value, true);
    }
  }

  /** Runs the policy over a script of attempts, until it ends or the script does. */
  method ExecuteSync(policy: Policy, budget: Budget.RetryBudget?, startedAt: nat, script: seq<Turn>)
    returns (flow: RetryFlow, progress: Progress, ending: Option<Ending>)
    requires Usable(policy, budget) && Returns(script)
    modifies budget
    ensures (flow.Contents(), progress)
        == RunTurns(ConfigOf(budget), policy, Start(startedAt, old(BookOf(budget))), script)
    ensures flow.Contents().book == BookOf(budget) && Usable(policy, budget)
    ensures ending == if progress.Running? then None else Some(EndingOf(policy, progress))
  {
    hide RunTurns, Attempt, Slept, FinishExhausted, ValidPolicy, ValidConfig;
    flow := new RetryFlow(policy, budget, startedAt);
    ghost var s0 := flow.Contents();
    for i := 0 to |script|
      invariant flow.Valid() && flow.policy == policy && flow.budget == budget && fresh(flow) && fresh(flow.runtime)
      invariant RunTurns(flow.Cfg(), policy, s0, script) == RunTurns(flow.Cfg(), policy, flow.Contents(), script[i..])
    {
      var t := script[i];
      assert script[i..][0] == t && script[i..][1..] == script[i + 1..];
      RunUnfolds(flow.Cfg(), policy, flow.Contents(), script[i..]);
      var decision := CallOnce(flow, t);
      match decision {
        case Propagate(e) =>
          return flow, Failed(e), Some(Throws(e));
        case Final(kind, result) =>
          var answer := Gives(result.value);
          if kind == Exhaust {
            answer := FinishExhausted(policy, result);
          } else if policy.shouldReturnResult {
            answer := GivesResult(result);
          } else if kind == Reject && result.error.Some? {
            answer := Throws(result.error.value);
          }
          return flow, Decided(kind, result), Some(answer);
        case Wait(plan) =>
          var error := flow.SleepBeforeRetry(t, plan);
          if error.Some? {
            return flow, Failed(error.value), Some(Throws(error.value));
          }
      }
    }
    assert script[|script|..] == [];
    RunOfNothing(flow.Cfg(), policy, flow.Contents());
    return flow, Running, None;
  }

  lemma RunUnfolds(cfg: Config, p: Policy, s: State, turns: seq<Turn>)
    requires ValidConfig(cfg) && turns != []
    ensures var (s1, progress) := TakeTurn(cfg, p, s, turns[0]);
            RunTurns(cfg, p, s, turns) == if progress.Running? then RunTurns(cfg, p, s1, turns[1..]) else (s1, progress)
  {
  }

  lemma RunOfNothing(cfg: Config, p: Policy, s: State)
    requires ValidConfig(cfg)
    ensures RunTurns(cfg, p, s, []) == (s, Running)
  {
  }

  // ---------------------------------------------------------------- decorated functions

  datatype Tally = Tally(calls: nat, successes: nat, failures: nat, exhausted: nat, totalAttempts: nat, totalTime: int)

  class RetryStats {
    var calls: nat
    var successes: nat
    var failures: nat
    var exhausted: nat
    var totalAttempts: nat
    var totalTime: int

    function Contents(): Tally
      reads this
    {
      Tally(calls, successes, failures, exhausted, totalAttempts, totalTime)
    }

    constructor ()
      ensures Contents() == Tally(0, 0, 0, 0, 0, 0)
    {
      calls, successes, failures, exhausted, totalAttempts, totalTime := 0, 0, 0, 0, 0, 0;
    }

    /** Counts one finished run by how it was decided. */
    method Record(result: RetryResult, ghost kind: FinalKind)
      requires KindFits(kind, result) && result.total > 0
      modifies this
      ensures Contents() == Counted(old(Contents()), kind, result.total, result.endedAt - result.startedAt)
    {
      calls := calls + 1;
      totalAttempts := totalAttempts + if result.total > 0 then result.total else |result.attempts|;
      totalTime := totalTime + result.endedAt - result.startedAt;
      if result.error.None? && !result.exhausted {
        successes := successes + 1;
      } else {
        failures := failures + 1;
      }
      if result.exhausted {
        exhausted := exhausted + 1;
      }
    }
  }

  /** One more run, decided as `kind`, with this many attempts in this much time. */
  function Counted(tally: Tally, kind: FinalKind, attempts: nat, time: int): Tally {
    Tally(tally.calls + 1,
          tally.successes + if kind == Accept then 1 else 0,
          tally.failures + if kind == Accept then 0 else 1,
          tally.exhausted + if kind == Exhaust then 1 else 0,
          tally.totalAttempts + attempts, tally.totalTime + time)
  }

  /** A run that came to a decision: how, after how many attempts, and in how much time. */
  datatype Ended = Ended(kind: FinalKind, attempts: nat, time: int)

  /** The counters after these runs, from zero. */
  function Tallied(runs: seq<Ended>): Tally {
    if runs == [] then Tally(0, 0, 0, 0, 0, 0)
    else
      var last := runs[|runs| - 1];
      Counted(Tallied(runs[..|runs| - 1]), last.kind, last.attempts, last.time)
  }

  /** Which of the runs were decided as `kind`. */
  function DecidedAs(runs: seq<Ended>, kind: FinalKind): set<nat> {
    set i: nat | i < |runs| && runs[i].kind == kind
  }

  function AttemptsIn(runs: seq<Ended>): nat {
    if runs == [] then 0 else runs[0].attempts + AttemptsIn(runs[1..])
  }

  function TimeIn(runs: seq<Ended>): int {
    if runs == [] then 0 else runs[0].time + TimeIn(runs[1..])
  }

  lemma {:induction false} SumsGrow(runs: seq<Ended>, last: Ended)
    ensures AttemptsIn(runs + [last]) == AttemptsIn(runs) + last.attempts
    ensures TimeIn(runs + [last]) == TimeIn(runs) + last.time
  {
    if runs == [] {
      assert (runs + [last])[1..] == [];
    } else {
      assert (runs + [last])[1..] == runs[1..] + [last];
      SumsGrow(runs[1..], last);
    }
  }

  lemma DecidedGrow(runs: seq<Ended>, last: Ended, kind: FinalKind)
    ensures |DecidedAs(runs + [last], kind)| == |DecidedAs(runs, kind)| + if last.kind == kind then 1 else 0
  {
    var all := runs + [last];
    assert DecidedAs(all, kind) == DecidedAs(runs, kind) + if last.kind == kind then {|runs|} else {};
  }

  /** The statistics add up: every run is a success or a failure, the successes are the accepted runs, the
      exhausted ones are among the failures, and attempts and time are those of all runs together. */
  lemma {:induction false} StatisticsAddUp(runs: seq<Ended>)
    ensures var tally := Tallied(runs);
            && tally.calls == |runs| == tally.successes + tally.failures && tally.exhausted <= tally.failures
            && tally.successes == |DecidedAs(runs, Accept)| && tally.exhausted == |DecidedAs(runs, Exhaust)|
            && tally.failures == |DecidedAs(runs, Reject)| + |DecidedAs(runs, Exhaust)|
            && tally.totalAttempts == AttemptsIn(runs) && tally.totalTime == TimeIn(runs)
  {
    if runs != [] {
      var most, last := runs[..|runs| - 1], runs[|runs| - 1];
      assert runs == most + [last];
      StatisticsAddUp(most);
      SumsGrow(most, last);
      DecidedGrow(most, last, Accept);
      DecidedGrow(most, last, Reject);
      DecidedGrow(most, last, Exhaust);
    }
  }

  class DecoratedFunction {
    const policy: Policy
    const trackingPolicy: Policy
    const budget: Budget.RetryBudget?
    const stats: RetryStats

    ghost predicate Valid()
      reads budget
    {
      Usable(policy, budget) && trackingPolicy == ReturnResult(policy)
    }

    constructor (policy: Policy, budget: Budget.RetryBudget?)
      requires Usable(policy, budget)
      ensures Valid() && this.policy == policy && this.budget == budget && fresh(stats)
      ensures stats.Contents() == Tally(0, 0, 0, 0, 0, 0)
    {
      this.policy := policy;
      this.budget := budget;
      trackingPolicy := ReturnResult(policy);
      stats := new RetryStats();
    }

    /** A call ends as a direct call of the policy would, leaves the budget as that would, and counts
        in the statistics when the run was decided. */
    method Call(startedAt: nat, script: seq<Turn>) returns (ending: Option<Ending>)
      requires Valid() && Returns(script)
      modifies budget, stats
      ensures var (s, progress) := RunTurns(ConfigOf(budget), policy, Start(startedAt, old(BookOf(budget))), script);
              && s.book == BookOf(budget) && Valid()
              && ending == (if progress.Running? then None else Some(EndingOf(policy, progress)))
              && stats.Contents() == if progress.Decided?
                                     then Counted(old(stats.Contents()), progress.kind, s.runtime.attemptNumber,
                                         progress.result.endedAt - startedAt)
                                     else old(stats.Contents())
    {
      hide RunTurns, Finish, ResolveTracked, ValidConfig;
      ghost var book := BookOf(budget);
      var flow, progress, tracked := ExecuteSync(trackingPolicy, budget, startedAt, script);
      DecoratedIsDirect(ConfigOf(budget), policy, startedAt, book, script);
      if progress.Running? {
        return None;
      }
      if tracked.value.GivesResult? {
        var result := tracked.value.result;
        DecisionCountsAttempts(ConfigOf(budget), policy, startedAt, book, script);
        DecisionsFit(ConfigOf(budget), policy, startedAt, book, script);
        stats.Record(result, progress.kind);
        return Some(ResolveTracked(policy, result));
      }
      return tracked;
    }
  }
}
