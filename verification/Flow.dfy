/** The objects of one execution, updated in place: the runtime bookkeeping and the flow that takes
the decisions. Every method is proved to do what the specification of the execution says. What lies
outside the library is read from the current turn of the script. */
module Flow {
  import opened Options
  import opened Stops
  import opened BudgetState
  import opened FlowState
  import Rounding
  import BudgetRuns
  import Budget

  // ---------------------------------------------------------------- bookkeeping

  class RetryRuntime {
    const startedAt: nat
    const historyLimit: Option<nat>
    var attempts: seq<Record>
    var attemptNumber: nat
    var failedCount: nat
    var successCount: nat

    /** The history never outgrows its limit, which is positive. */
    ghost predicate Valid()
      reads this
    {
      historyLimit.Some? ==> historyLimit.value > 0 && |attempts| <= historyLimit.value
    }

    function Contents(): Runtime
      reads this
    {
      Runtime(startedAt, attemptNumber, failedCount, successCount, attempts)
    }

    constructor (startedAt: nat, historyLimit: Option<nat>)
      requires historyLimit.Some? ==> historyLimit.value > 0
      ensures Valid() && this.historyLimit == historyLimit
      ensures Contents() == Runtime(startedAt, 0, 0, 0, [])
    {
      this.startedAt := startedAt;
      this.historyLimit := historyLimit;
      attempts, attemptNumber, failedCount, successCount := [], 0, 0, 0;
    }

    method BeginAttempt() returns (number: nat)
      requires Valid()
      modifies this
      ensures Valid() && Contents() == old(Contents()).(attemptNumber := number)
      ensures number == old(attemptNumber) + 1
    {
      attemptNumber := attemptNumber + 1;
      return attemptNumber;
    }

    /** Appends to the bounded history: a full one loses its oldest record. */
    method Append(record: Record)
      requires Valid()
      modifies this`attempts
      ensures Valid() && attempts == Bounded(old(attempts) + [record], historyLimit)
      ensures |attempts| == |old(attempts)| + if historyLimit == Some(|old(attempts)|) then 0 else 1
      ensures attempts == (old(attempts) + [record])[|old(attempts)| + 1 - |attempts|..]
    {
      if historyLimit.Some? && |attempts| == historyLimit.value {
        attempts := attempts[1..];
      }
      attempts := attempts + [record];
    }

    method RecordSuccess(startedAt: nat, endedAt: nat, value: Value, hasValue: bool)
      requires Valid()
      modifies this
      ensures Valid()
      ensures Contents() == Recorded(old(Contents()), historyLimit,
          Record(old(attemptNumber), startedAt, endedAt, value, hasValue, None))
    {
      Append(Record(attemptNumber, startedAt, endedAt, value, hasValue, None));
      successCount := successCount + 1;
    }

    method RecordFailure(startedAt: nat, endedAt: nat, error: Error)
      requires Valid()
      modifies this
      ensures Valid()
      ensures Contents() == Recorded(old(Contents()), historyLimit,
          Record(old(attemptNumber), startedAt, endedAt, Nothing, false, Some(error)))
    {
      Append(Record(attemptNumber, startedAt, endedAt, Nothing, false, Some(error)));
      failedCount := failedCount + 1;
    }

    /** The final report; an exhausted failure reports the error its retry signal stands for. */
    method Result(endedAt: nat, value: Value, error: Option<Error>, exhausted: bool,
            cause: Option<Cause>) returns (r: RetryResult)
      ensures r == ResultOf(Contents(), endedAt, value, error, exhausted, cause)
    {
      var final := error;
      if exhausted && cause == Some(ByException) && error.Some? {
        final := Some(ResolveFinalError(error.value));
      }
      r := RetryResult(attempts, value, final, startedAt, endedAt, exhausted, cause, attemptNumber, failedCount,
          successCount);
    }
  }

  // ---------------------------------------------------------------- the flow

  /** The arithmetic of an execution without a budget is of no consequence. */
  ghost const NO_BUDGET := Config(Rounding.Exact(1), 1)

  class RetryFlow {
    const policy: Policy
    const runtime: RetryRuntime
    const budget: Budget.RetryBudget?
    var attemptStartedAt: nat
    ghost var trace: Trace

    ghost function Cfg(): Config {
      if budget == null then NO_BUDGET else budget.config
    }

    ghost predicate Valid()
      reads this, runtime, budget
    {
      && ValidPolicy(policy) && ValidConfig(Cfg()) && runtime.Valid() && (budget != null ==> budget.Valid())
      && runtime.historyLimit == policy.historyLimit
      && (budget == null <==> policy.budgetKey.None?)
    }

    /** The execution as a value, together with the budget it shares. */
    ghost function Contents(): State
      reads this, runtime, budget
    {
      State(runtime.Contents(), attemptStartedAt, if budget == null then EMPTY_BOOK else budget.Contents(), trace)
    }

    constructor (policy: Policy, budget: Budget.RetryBudget?, startedAt: nat)
      requires ValidPolicy(policy)
      requires budget == null <==> policy.budgetKey.None?
      requires budget != null ==> budget.Valid()
      ensures Valid() && this.policy == policy && this.budget == budget && fresh(runtime)
      ensures Contents() == Start(startedAt, if budget == null then EMPTY_BOOK else budget.Contents())
    {
      this.policy := policy;
      this.budget := budget;
      runtime := new RetryRuntime(startedAt, policy.historyLimit);
      attemptStartedAt := startedAt;
      trace := Trace([], [], [], []);
      Rounding.ExactIsSound(1);
    }

    method NextAttempt() returns (number: nat)
      requires Valid()
      modifies runtime
      ensures Valid() && number == old(runtime.attemptNumber) + 1
      ensures var s := old(Contents());
              Contents() == s.(runtime := s.runtime.(attemptNumber := number))
    {
      number := runtime.BeginAttempt();
    }

    /** Hands an event to the handlers; one of them may fail. */
    method EmitEvent(event: Event, handlers: Call) returns (error: Option<Error>)
      requires Valid()
      modifies this
      ensures Valid() && Contents() == FlowState.Emit(old(Contents()), event)
      ensures error == if handlers.Fails? then Some(handlers.error) else None
    {
      trace := trace.(events := trace.events + [event]);
      return if handlers.Fails? then Some(handlers.error) else None;
    }

    method EnterAttempt(t: Turn) returns (error: Option<Error>)
      requires Valid()
      modifies this
      ensures Valid()
      ensures error == if t.beforeAttempt.Fails? then Some(t.beforeAttempt.error) else None
      ensures var s := FlowState.Emit(old(Contents()), BeforeAttempt);
              Contents() == if error.Some? then s else s.(attemptStartedAt := t.beganAt)
    {
      error := EmitEvent(BeforeAttempt, t.beforeAttempt);
      if error.None? {
        attemptStartedAt := t.beganAt;
      }
    }

    method AfterException(t: Turn, error: Error) returns (d: Decision)
      requires Valid()
      modifies this, runtime, budget
      ensures Valid()
      ensures (Contents(), d) == FlowState.AfterException(Cfg(), policy, old(Contents()), t, error)
      ensures d.Wait? && d.plan.reservation.Some? ==> budget != null
    {
      hide FlowState.PlanRetry, ShouldStop, Recorded, ResultOf, ValidPolicy, ValidConfig;
      if !IsTryAgain(error) && t.verdict.Breaks? {
        return Propagate(t.verdict.error);
      }
      var shouldRetry := IsTryAgain(error) || t.verdict.WantsRetry?;
      runtime.RecordFailure(attemptStartedAt, t.endedAt, error);
      var shouldStop := ShouldStop(policy.stop, runtime.attemptNumber, t.endedAt - runtime.startedAt);
      var failure := EmitEvent(AfterFailure, t.afterFailure);
      if failure.Some? {
        return Propagate(failure.value);
      }
      if !shouldRetry {
        var result := runtime.Result(t.sealedAt, Nothing, Some(error), false, None);
        failure := EmitEvent(AfterGiveup, t.afterFinal);
        return if failure.Some? then Propagate(failure.value) else Final(Reject, result);
      }
      if shouldStop {
        d := Exhaust(t, Nothing, Some(error), ByException);
      } else {
        d := PlanRetry(t, Nothing, Some(error), ByException);
      }
    }

    method AfterValue(t: Turn, value: Value, hasValue: bool) returns (d: Decision)
      requires Valid()
      modifies this, runtime, budget
      ensures Valid()
      ensures (Contents(), d) == FlowState.AfterValue(Cfg(), policy, old(Contents()), t, value, hasValue)
      ensures d.Wait? && d.plan.reservation.Some? ==> budget != null
    {
      hide FlowState.PlanRetry, ShouldStop, Recorded, ResultOf, ValidPolicy, ValidConfig;
      runtime.RecordSuccess(attemptStartedAt, t.endedAt, value, hasValue);
      if hasValue && t.verdict.Breaks? {
        return Propagate(t.verdict.error);
      }
      var shouldRetry := hasValue && t.verdict.WantsRetry?;
      var shouldStop := ShouldStop(policy.stop, runtime.attemptNumber, t.endedAt - runtime.startedAt);
      if !shouldRetry {
        var result := runtime.Result(t.sealedAt, value, None, false, None);
        var failure := EmitEvent(AfterSuccess, t.afterFinal);
        return if failure.Some? then Propagate(failure.value) else Final(Accept, result);
      }
      if shouldStop {
        d := Exhaust(t, value, None, ByResult);
      } else {
        d := PlanRetry(t, value, None, ByResult);
      }
    }

    method Exhaust(t: Turn, value: Value, error: Option<Error>, cause: Cause) returns (d: Decision)
      requires Valid()
      modifies this
      ensures Valid()
      ensures (Contents(), d) == Exhausted(old(Contents()), t, value, error, cause) && !d.Wait?
    {
      hide ResultOf;
      var result := runtime.Result(t.sealedAt, value, error, true, Some(cause));
      var failure := EmitEvent(AfterGiveup, t.afterFinal);
      return if failure.Some? then Propagate(failure.value) else Final(FinalKind.Exhaust, result);
    }

    method SleepWouldStop(plan: Plan, now: nat) returns (stops: bool)
      requires Valid()
      ensures stops == StopsAt(policy, Contents(), now, plan.totalDelay)
    {
      hide ShouldStop;
      var elapsed := now - runtime.startedAt;
      stops := ShouldStop(policy.stop, runtime.attemptNumber, elapsed + plan.totalDelay);
    }

    /** Plans the next attempt: reserve, check the deadline, announce the sleep, check it again. On
        every way out but the last the reservation is given back. */
    method PlanRetry(t: Turn, value: Value, error: Option<Error>, cause: Cause) returns (d: Decision)
      requires Valid()
      modifies this, budget
      ensures Valid()
      ensures (Contents(), d) == FlowState.PlanRetry(Cfg(), policy, old(Contents()), t, value, error, cause)
      ensures d.Wait? && d.plan.reservation.Some? ==> budget != null
    {
      hide FlowState.PlanRetryWait, Released, StopsAt, Exhausted, FlowState.Emit, ValidPolicy, ValidConfig;
      var planning := PlanRetryWait(t);
      match planning {
        case PlanningFailed(e) =>
          return Propagate(e);
        case Saturated =>
          d := Exhaust(t, value, error, cause);
          return;
        case Planned(plan) =>
          var stops := SleepWouldStop(plan, t.checkedAt);
          if stops {
            ReleaseRetryWait(plan, t.releasedAt);
            d := Exhaust(t, value, error, cause);
            return;
          }
          var failure := EmitEvent(BeforeSleep, t.beforeSleep);
          if failure.Some? {
            ReleaseRetryWait(plan, t.releasedAt);
            return Propagate(failure.value);
          }
          stops := SleepWouldStop(plan, t.recheckedAt);
          if stops {
            ReleaseRetryWait(plan, t.releasedAt);
            d := Exhaust(t, value, error, cause);
            return;
          }
          return Wait(plan);
      }
    }

    /** Resolves the policy delay and, with a budget, reserves a slot from the end of that delay on. */
    method PlanRetryWait(t: Turn) returns (planning: Planning)
      requires Valid()
      modifies this, budget
      ensures Valid()
      ensures (Contents(), planning) == FlowState.PlanRetryWait(Cfg(), policy, old(Contents()), t)
      ensures planning.Planned? && planning.plan.reservation.Some? ==> budget != null
    {
      hide ReserveStep, ReleaseStep, ValidKey, ValidConfig;
      if t.backoff.NoBackoff? {
        return PlanningFailed(t.backoff.error);
      }
      var policyDelay := t.backoff.ticks;
      if policyDelay < 0 || policyDelay > MAX_SLEEP {
        return PlanningFailed(InvalidConfig);
      }
      if budget == null {
        return Planned(Plan(policyDelay, 0, policyDelay, None));
      }
      var key := policy.budgetKey.value;
      var notBefore := t.plannedAt + policyDelay;
      var granted := budget.Reserve(key, t.plannedAt, notBefore);
      var reservation := granted.value;
      trace := trace.(ops := trace.ops + [BudgetRuns.Reserve(key, t.plannedAt, notBefore)],
                      answers := trace.answers + [BudgetRuns.Granted(reservation)]);
      var budgetDelay := if reservation.scheduledAt > notBefore then reservation.scheduledAt - notBefore else 0;
      var totalDelay := policyDelay + budgetDelay;
      var plan := Plan(policyDelay, budgetDelay, totalDelay, Some(reservation));
      if totalDelay > MAX_SLEEP {
        ReleaseRetryWait(plan, t.releasedAt);
        return Saturated;
      }
      return Planned(plan);
    }

    /** Gives the reservation of a plan back, if there is one. */
    method ReleaseRetryWait(plan: Plan, now: nat)
      requires Valid() && (plan.reservation.Some? ==> budget != null)
      modifies this, budget
      ensures Valid() && Contents() == Released(Cfg(), old(Contents()), plan, now)
    {
      hide ReleaseStep, ValidPolicy, ValidConfig;
      if plan.reservation.Some? {
        var reservation := plan.reservation.value;
        budget.Release(reservation, now);
        trace := trace.(ops := trace.ops + [BudgetRuns.Release(reservation, now)],
            answers := trace.answers + [BudgetRuns.Done]);
      }
    }

    /** Sleeps for the plan, and gives its reservation back when the sleeper fails. */
    method SleepBeforeRetry(t: Turn, plan: Plan) returns (error: Option<Error>)
      requires Valid() && (plan.reservation.Some? ==> budget != null)
      modifies this, budget
      ensures Valid() && (Contents(), error) == Slept(Cfg(), old(Contents()), t, plan)
    {
      hide Released, ValidPolicy, ValidConfig;
      if t.sleeper.Fails? {
        ReleaseRetryWait(plan, t.releasedAt);
        return Some(t.sleeper.error);
      }
      trace := trace.(sleeps := trace.sleeps + [Sleep(t.recheckedAt, plan.totalDelay)]);
      return None;
    }
  }
}
