/** One retry execution as a value: its bookkeeping, the decision after each attempt, and the
budget calls and events it makes. Everything outside the library (user code, conditions, event
handlers, the delay strategy, the sleeper, the clock) is scripted by the turns of the run. */
module FlowState {
  import opened Options
  import opened Stops
  import opened BudgetState
  import BudgetRuns

  /** Time and delays of an execution are whole nanoseconds. */
  const TICKS_PER_SECOND: nat := 1_000_000_000
  const MAX_SLEEP: nat := 86_400 * TICKS_PER_SECOND

  // ---------------------------------------------------------------- values and errors

  datatype Value = Nothing | Object(id: nat)

  /** `ordinary` marks instances of Exception, as opposed to other BaseExceptions. */
  datatype Error =
    | Raised(id: nat, ordinary: bool, tryAgain: bool,
             cause: Option<Error>, context: Option<Error>, suppressContext: bool)
    | InvalidConfig
    | RetryExhausted

  predicate IsTryAgain(e: Error) {
    e.Raised? && e.tryAgain
  }

  /** Can stand in for a TryAgain signal as the operational error. */
  predicate IsOperational(e: Option<Error>) {
    e.Some? && (e.value.Raised? ==> e.value.ordinary) && !IsTryAgain(e.value)
  }

  /** The operational error a final retry signal stands for. */
  function ResolveFinalError(e: Error): Error {
    if !IsTryAgain(e) then e
    else if IsOperational(e.cause) then e.cause.value
    else if !e.suppressContext && IsOperational(e.context) then e.context.value
    else e
  }

  // ---------------------------------------------------------------- results and policies

  datatype Cause = ByException | ByResult

  datatype Record = Record(number: nat, startedAt: nat, endedAt: nat,
                           value: Value, hasValue: bool, error: Option<Error>)

  datatype RetryResult = RetryResult(attempts: seq<Record>, value: Value, error: Option<Error>,
                                     startedAt: nat, endedAt: nat, exhausted: bool, cause: Option<Cause>,
                                     total: nat, failed: nat, succeeded: nat)

  /** How a run ends for its caller. */
  datatype Ending = GivesResult(result: RetryResult) | Gives(value: Value) | Throws(error: Error)

  datatype Made = Exception(error: Error) | NotAnException | Breaks(error: Error)

  /** `fallback` and `factory` are user code, applied to the result of an exhausted run. */
  datatype Policy = Policy(stop: Stop, budgetKey: Option<string>, historyLimit: Option<nat>,
                           shouldReturnResult: bool, fallback: Option<RetryResult -> Ending>,
                           factory: Option<RetryResult -> Made>, shouldRaiseLast: bool, raiseOnResult: bool)

  ghost predicate ValidPolicy(p: Policy) {
    && WellFormed(p.stop)
    && (p.budgetKey.Some? ==> ValidKey(p.budgetKey.value))
    && (p.historyLimit.Some? ==> p.historyLimit.value > 0)
  }

  // ---------------------------------------------------------------- what happens around an attempt

  datatype Call = Fine | Fails(error: Error)

  datatype Outcome = Returned(value: Value, hasValue: bool) | Threw(error: Error) | Aborted(error: Error)

  /** What the retry condition answers. */
  datatype Verdict = WantsRetry | Declines | Breaks(error: Error)

  /** What the delay strategy answers. */
  datatype Backoff = Seconds(ticks: int) | NoBackoff(error: Error)

  /** One attempt and what follows it, in the order in which it is consulted. */
  datatype Turn = Turn(beforeAttempt: Call, beganAt: nat, outcome: Outcome, verdict: Verdict, endedAt: nat,
                       afterFailure: Call, backoff: Backoff, plannedAt: nat, checkedAt: nat, beforeSleep: Call,
                       recheckedAt: nat, releasedAt: nat, sealedAt: nat, afterFinal: Call, sleeper: Call)

  // ---------------------------------------------------------------- the state of an execution

  datatype Event = BeforeAttempt | AfterFailure | BeforeSleep | AfterSuccess | AfterGiveup

  datatype Runtime = Runtime(startedAt: nat, attemptNumber: nat, failed: nat, succeeded: nat, attempts: seq<Record>)

  datatype Sleep = Sleep(from: nat, ticks: nat)

  /** What an observer of the execution has seen: events, calls to the budget, completed sleeps. */
  datatype Trace = Trace(events: seq<Event>, ops: seq<BudgetRuns.Op>, answers: seq<BudgetRuns.Answer>,
                         sleeps: seq<Sleep>)

  datatype State = State(runtime: Runtime, attemptStartedAt: nat, book: Book, trace: Trace)

  function Start(startedAt: nat, book: Book): State {
    State(Runtime(startedAt, 0, 0, 0, []), startedAt, book, Trace([], [], [], []))
  }

  datatype Plan = Plan(policyDelay: nat, budgetDelay: nat, totalDelay: nat, reservation: Option<Reservation>)

  datatype FinalKind = Accept | Reject | Exhaust

  /** Sleep and try again; or finish; or let an error from outside the library propagate. */
  datatype Decision = Wait(plan: Plan) | Final(kind: FinalKind, result: RetryResult) | Propagate(error: Error)

  // ---------------------------------------------------------------- bookkeeping

  /** The last records that fit the history limit. */
  function Bounded(records: seq<Record>, limit: Option<nat>): seq<Record> {
    if limit.Some? && |records| > limit.value then records[|records| - limit.value..] else records
  }

  function Recorded(rt: Runtime, limit: Option<nat>, record: Record): Runtime {
    var attempts := Bounded(rt.attempts + [record], limit);
    if record.error.Some? then rt.(attempts := attempts, failed := rt.failed + 1)
    else rt.(attempts := attempts, succeeded := rt.succeeded + 1)
  }

  function ResultOf(rt: Runtime, endedAt: nat, value: Value, error: Option<Error>, exhausted: bool,
          cause: Option<Cause>): RetryResult {
    var final := if exhausted && cause == Some(ByException) && error.Some? then Some(ResolveFinalError(error.value))
        else error;
    RetryResult(rt.attempts, value, final, rt.startedAt, endedAt, exhausted, cause, rt.attemptNumber, rt.failed,
        rt.succeeded)
  }

  function Emit(s: State, e: Event): State {
    s.(trace := s.trace.(events := s.trace.events + [e]))
  }

  // ---------------------------------------------------------------- calls to the budget

  ghost function Reserved(cfg: Config, s: State, key: string, current: nat, notBefore: nat): (State, Reservation)
    requires ValidConfig(cfg)
  {
    var (book, r) := ReserveStep(cfg, s.book, key, current, notBefore);
    (s.(book := book, trace := s.trace.(ops := s.trace.ops + [BudgetRuns.Reserve(key, current, notBefore)],
                                        answers := s.trace.answers + [BudgetRuns.Granted(r)])), r)
  }

  function Released(cfg: Config, s: State, plan: Plan, current: nat): State {
    if plan.reservation.None? then s
    else
      var r := plan.reservation.value;
      s.(book := ReleaseStep(cfg, s.book, r, current),
         trace := s.trace.(ops := s.trace.ops + [BudgetRuns.Release(r, current)],
             answers := s.trace.answers + [BudgetRuns.Done]))
  }

  // ---------------------------------------------------------------- decisions

  function Exhausted(s: State, t: Turn, value: Value, error: Option<Error>, cause: Cause): (State, Decision) {
    var result := ResultOf(s.runtime, t.sealedAt, value, error, true, Some(cause));
    (Emit(s, AfterGiveup), if t.afterFinal.Fails? then Propagate(t.afterFinal.error) else Final(Exhaust, result))
  }

  predicate StopsAt(p: Policy, s: State, now: nat, extra: nat) {
    ShouldStop(p.stop, s.runtime.attemptNumber, now - s.runtime.startedAt + extra)
  }

  datatype Planning = Planned(plan: Plan) | Saturated | PlanningFailed(error: Error)

  /** Combines the policy delay with a reservation; a wait above the ceiling gives the reservation back. */
  ghost function PlanRetryWait(cfg: Config, p: Policy, s: State, t: Turn): (State, Planning)
    requires ValidConfig(cfg)
  {
    match t.backoff
    case NoBackoff(e) => (s, PlanningFailed(e))
    case Seconds(ticks) =>
      if ticks < 0 || ticks > MAX_SLEEP then (s, PlanningFailed(InvalidConfig))
      else if p.budgetKey.None? then (s, Planned(Plan(ticks, 0, ticks, None)))
      else
        var notBefore := t.plannedAt + ticks;
        var (s', r) := Reserved(cfg, s, p.budgetKey.value, t.plannedAt, notBefore);
        var budgetDelay := if r.scheduledAt > notBefore then r.scheduledAt - notBefore else 0;
        var plan := Plan(ticks, budgetDelay, ticks + budgetDelay, Some(r));
        if plan.totalDelay > MAX_SLEEP then (Released(cfg, s', plan, t.releasedAt), Saturated) else (s', Planned(plan))
  }

  ghost function PlanRetry(cfg: Config, p: Policy, s: State, t: Turn, value: Value, error: Option<Error>,
          cause: Cause): (State, Decision)
    requires ValidConfig(cfg)
  {
    var (s1, planning) := PlanRetryWait(cfg, p, s, t);
    match planning
    case PlanningFailed(e) => (s1, Propagate(e))
    case Saturated => Exhausted(s1, t, value, error, cause)
    case Planned(plan) =>
      if StopsAt(p, s1, t.checkedAt, plan.totalDelay) then
        Exhausted(Released(cfg, s1, plan, t.releasedAt), t, value, error, cause)
      else
        var s2 := Emit(s1, BeforeSleep);
        if t.beforeSleep.Fails? then (Released(cfg, s2, plan, t.releasedAt), Propagate(t.beforeSleep.error))
        else if StopsAt(p, s2, t.recheckedAt, plan.totalDelay) then
          Exhausted(Released(cfg, s2, plan, t.releasedAt), t, value, error, cause)
        else (s2, Wait(plan))
  }

  ghost function AfterException(cfg: Config, p: Policy, s: State, t: Turn, error: Error): (State, Decision)
    requires ValidConfig(cfg)
  {
    if !IsTryAgain(error) && t.verdict.Breaks? then (s, Propagate(t.verdict.error))
    else
      var shouldRetry := IsTryAgain(error) || t.verdict.WantsRetry?;
      var record := Record(s.runtime.attemptNumber, s.attemptStartedAt, t.endedAt, Nothing, false, Some(error));
      var s1 := Emit(s.(runtime := Recorded(s.runtime, p.historyLimit, record)), AfterFailure);
      if t.afterFailure.Fails? then (s1, Propagate(t.afterFailure.error))
      else if !shouldRetry then
        var result := ResultOf(s1.runtime, t.sealedAt, Nothing, Some(error), false, None);
        (Emit(s1, AfterGiveup), if t.afterFinal.Fails? then Propagate(t.afterFinal.error) else Final(Reject, result))
      else if StopsAt(p, s1, t.endedAt, 0) then Exhausted(s1, t, Nothing, Some(error), ByException)
      else PlanRetry(cfg, p, s1, t, Nothing, Some(error), ByException)
  }

  ghost function AfterValue(cfg: Config, p: Policy, s: State, t: Turn, value: Value, hasValue: bool): (State, Decision)
    requires ValidConfig(cfg)
  {
    var record := Record(s.runtime.attemptNumber, s.attemptStartedAt, t.endedAt, value, hasValue, None);
    var s1 := s.(runtime := Recorded(s.runtime, p.historyLimit, record));
    if hasValue && t.verdict.Breaks? then (s1, Propagate(t.verdict.error))
    else if !hasValue || t.verdict.Declines? then
      var result := ResultOf(s1.runtime, t.sealedAt, value, None, false, None);
      (Emit(s1, AfterSuccess), if t.afterFinal.Fails? then Propagate(t.afterFinal.error) else Final(Accept, result))
    else if StopsAt(p, s1, t.endedAt, 0) then Exhausted(s1, t, value, None, ByResult)
    else PlanRetry(cfg, p, s1, t, value, None, ByResult)
  }

  /** From the start of an attempt to the decision that follows it. */
  ghost function Attempt(cfg: Config, p: Policy, s: State, t: Turn): (State, Decision)
    requires ValidConfig(cfg)
  {
    var s1 := Emit(s.(runtime := s.runtime.(attemptNumber := s.runtime.attemptNumber + 1)), BeforeAttempt);
    if t.beforeAttempt.Fails? then (s1, Propagate(t.beforeAttempt.error))
    else
      var s2 := s1.(attemptStartedAt := t.beganAt);
      match t.outcome
      case Aborted(e) => (s2, Propagate(e))
      case Threw(e) => AfterException(cfg, p, s2, t, e)
      case Returned(value, hasValue) => AfterValue(cfg, p, s2, t, value, hasValue)
  }

  /** The sleep before the next attempt; a sleeper that fails gives the reservation back. */
  function Slept(cfg: Config, s: State, t: Turn, plan: Plan): (State, Option<Error>) {
    if t.sleeper.Fails? then (Released(cfg, s, plan, t.releasedAt), Some(t.sleeper.error))
    else (s.(trace := s.trace.(sleeps := s.trace.sleeps + [Sleep(t.recheckedAt, plan.totalDelay)])), None)
  }

  /** Where a run stands: it goes on, or it has ended with a decision or with an error from outside. */
  datatype Progress = Running | Decided(kind: FinalKind, result: RetryResult) | Failed(error: Error)

  ghost function TakeTurn(cfg: Config, p: Policy, s: State, t: Turn): (State, Progress)
    requires ValidConfig(cfg)
  {
    var (s1, decision) := Attempt(cfg, p, s, t);
    match decision
    case Propagate(e) => (s1, Failed(e))
    case Final(kind, result) => (s1, Decided(kind, result))
    case Wait(plan) =>
      var (s2, e) := Slept(cfg, s1, t, plan);
      (s2, if e.Some? then Failed(e.value) else Running)
  }

  /** The run of one execution over the first turns of a script, as far as it gets. */
  ghost function RunTurns(cfg: Config, p: Policy, s: State, turns: seq<Turn>): (State, Progress)
    requires ValidConfig(cfg)
    decreases |turns|
  {
    if turns == [] then (s, Running)
    else
      var (s1, progress) := TakeTurn(cfg, p, s, turns[0]);
      if progress.Running? then RunTurns(cfg, p, s1, turns[1..]) else (s1, progress)
  }

  // ---------------------------------------------------------------- endings

  function FinishExhausted(p: Policy, result: RetryResult): Ending {
    if p.shouldReturnResult then GivesResult(result)
    else if p.fallback.Some? then p.fallback.value(result)
    else if p.factory.Some? then
      match p.factory.value(result)
      case Exception(e) => Throws(e)
      case NotAnException => Throws(InvalidConfig)
      case Breaks(e) => Throws(e)
    else if result.error.Some? && p.shouldRaiseLast then Throws(result.error.value)
    else if result.exhausted && result.cause == Some(ByResult) && p.raiseOnResult then Throws(RetryExhausted)
    else Gives(result.value)
  }

  /** The ending of a direct run, from its final decision. */
  function Finish(p: Policy, kind: FinalKind, result: RetryResult): Ending {
    if kind == Exhaust then FinishExhausted(p, result)
    else if p.shouldReturnResult then GivesResult(result)
    else if kind == Reject && result.error.Some? then Throws(result.error.value)
    else Gives(result.value)
  }

  /** A tracked run returns its result; this applies the caller's policy to it. */
  function ResolveTracked(p: Policy, result: RetryResult): Ending {
    if p.shouldReturnResult then GivesResult(result)
    else if result.exhausted then FinishExhausted(p, result)
    else if result.error.Some? then Throws(result.error.value)
    else Gives(result.value)
  }

  /** The same policy, set to return results. */
  function ReturnResult(p: Policy): Policy {
    p.(shouldReturnResult := true, fallback := None, factory := None, shouldRaiseLast := false)
  }
}
