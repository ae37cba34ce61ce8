/** What one turn of the script comes to, read off the script, the stop strategy and the slot that the
budget grants: how it ends, what it announces, what it asks of the budget and how long it sleeps. */
module Decisions {
  import opened Options
  import opened Stops
  import opened BudgetState
  import opened FlowState
  import opened FlowLaws
  import opened FlowResults
  import BudgetRuns

  /** No retry waits longer than a day. */
  const DAY: nat := 24 * 60 * 60 * 1_000_000_000

  // ---------------------------------------------------------------- how far a turn gets

  /** The retry condition is asked about values and about errors that are no retry signals. */
  predicate AsksCondition(t: Turn) {
    match t.outcome
    case Returned(_, hasValue) => hasValue
    case Threw(e) => !IsTryAgain(e)
    case Aborted(_) => false
  }

  /** The attempt began, ended by itself, and the condition, if asked, had an answer. */
  predicate Judged(t: Turn) {
    t.beforeAttempt.Fine? && !t.outcome.Aborted? && (AsksCondition(t) ==> !t.verdict.Breaks?)
  }

  /** The handlers have been told of the failure, if it was one. */
  predicate Heard(t: Turn) {
    Judged(t) && (t.outcome.Threw? ==> t.afterFailure.Fine?)
  }

  /** The attempt is settled: it asks for no other. */
  predicate Settles(t: Turn) {
    Heard(t) && !WantsAnother(t)
  }

  /** The attempt asks for another, and the strategy did not stop when it ended. */
  predicate GoesOn(p: Policy, s: State, t: Turn) {
    Heard(t) && WantsAnother(t) && !ShouldStop(p.stop, s.runtime.attemptNumber + 1, t.endedAt - s.runtime.startedAt)
  }

  predicate HasDelay(t: Turn) {
    t.backoff.Seconds? && 0 <= t.backoff.ticks <= DAY
  }

  /** What a budget grants to a retry whose delay has passed. */
  ghost function SlotFor(cfg: Config, book: Book, key: string, t: Turn): Reservation
    requires ValidConfig(cfg) && HasDelay(t)
  {
    ReserveStep(cfg, book, key, t.plannedAt, t.plannedAt + t.backoff.ticks).1
  }

  /** The budget once it has granted that. */
  ghost function BookWith(cfg: Config, book: Book, key: string, t: Turn): Book
    requires ValidConfig(cfg) && HasDelay(t)
  {
    ReserveStep(cfg, book, key, t.plannedAt, t.plannedAt + t.backoff.ticks).0
  }

  /** When the next attempt is due: once the delay has passed, and with a budget at the granted slot. */
  ghost function DueAt(cfg: Config, p: Policy, s: State, t: Turn): (due: nat)
    requires ValidConfig(cfg) && HasDelay(t)
    ensures due >= t.plannedAt + t.backoff.ticks
  {
    if p.budgetKey.None? then t.plannedAt + t.backoff.ticks else SlotFor(cfg, s.book, p.budgetKey.value, t).scheduledAt
  }

  ghost function WaitFor(cfg: Config, p: Policy, s: State, t: Turn): nat
    requires ValidConfig(cfg) && HasDelay(t)
  {
    DueAt(cfg, p, s, t) - t.plannedAt
  }

  /** At `now`, the wait would still end before the strategy stops. */
  ghost predicate InTime(cfg: Config, p: Policy, s: State, t: Turn, now: nat)
    requires ValidConfig(cfg) && HasDelay(t)
  {
    !ShouldStop(p.stop, s.runtime.attemptNumber + 1, now - s.runtime.startedAt + WaitFor(cfg, p, s, t))
  }

  /** A wait is found that is not too long, and it is announced. */
  ghost predicate Announces(cfg: Config, p: Policy, s: State, t: Turn)
    requires ValidConfig(cfg)
  {
    GoesOn(p, s, t) && HasDelay(t) && WaitFor(cfg, p, s, t) <= DAY && InTime(cfg, p, s, t, t.checkedAt)
  }

  /** The handlers leave time for the wait: it is handed to the sleeper. */
  ghost predicate Sleeps(cfg: Config, p: Policy, s: State, t: Turn)
    requires ValidConfig(cfg)
  {
    Announces(cfg, p, s, t) && t.beforeSleep.Fine? && InTime(cfg, p, s, t, t.recheckedAt)
  }

  /** The attempt asks for another and gets none: the strategy stops at its end, or the budget is
      saturated, or the wait would not end in time, by the clock read before or after its handlers. */
  ghost predicate Exhausts(cfg: Config, p: Policy, s: State, t: Turn)
    requires ValidConfig(cfg)
  {
    && Heard(t) && WantsAnother(t)
    && (!GoesOn(p, s, t) || (HasDelay(t) && !Announces(cfg, p, s, t))
        || (Announces(cfg, p, s, t) && t.beforeSleep.Fine? && !Sleeps(cfg, p, s, t)))
  }

  /** The error that ends the turn from outside: it comes from the first thing asked that fails. */
  ghost predicate FailsWith(cfg: Config, p: Policy, s: State, t: Turn, e: Error)
    requires ValidConfig(cfg)
  {
    || t.beforeAttempt == Fails(e)
    || (t.beforeAttempt.Fine? && t.outcome == Aborted(e))
    || (t.beforeAttempt.Fine? && AsksCondition(t) && t.verdict == Verdict.Breaks(e))
    || (Judged(t) && t.outcome.Threw? && t.afterFailure == Fails(e))
    || ((Settles(t) || Exhausts(cfg, p, s, t)) && t.afterFinal == Fails(e))
    || (GoesOn(p, s, t) && t.backoff == NoBackoff(e))
    || (GoesOn(p, s, t) && t.backoff.Seconds? && !HasDelay(t) && e == InvalidConfig)
    || (Announces(cfg, p, s, t) && t.beforeSleep == Fails(e))
    || (Sleeps(cfg, p, s, t) && t.sleeper == Fails(e))
  }

  /** What the turn announces, in this order. */
  ghost function EventsOf(cfg: Config, p: Policy, s: State, t: Turn): seq<Event>
    requires ValidConfig(cfg)
  {
    [BeforeAttempt]
    + (if Judged(t) && t.outcome.Threw? then [AfterFailure] else [])
    + (if Announces(cfg, p, s, t) then [BeforeSleep] else [])
    + (if Settles(t) && t.outcome.Returned? then [AfterSuccess] else [])
    + (if (Settles(t) && t.outcome.Threw?) || Exhausts(cfg, p, s, t) then [AfterGiveup] else [])
  }

  /** What the turn asks of the budget: a slot for the end of its delay, given back unless it is slept for. */
  ghost function CallsOf(cfg: Config, p: Policy, s: State, t: Turn): seq<BudgetRuns.Op>
    requires ValidConfig(cfg)
  {
    if !GoesOn(p, s, t) || !HasDelay(t) || p.budgetKey.None? then []
    else
      [BudgetRuns.Reserve(p.budgetKey.value, t.plannedAt, t.plannedAt + t.backoff.ticks)]
      + if Sleeps(cfg, p, s, t) && t.sleeper.Fine? then []
        else [BudgetRuns.Release(SlotFor(cfg, s.book, p.budgetKey.value, t), t.releasedAt)]
  }

  ghost function AnswersTo(cfg: Config, p: Policy, s: State, t: Turn): seq<BudgetRuns.Answer>
    requires ValidConfig(cfg)
  {
    if !GoesOn(p, s, t) || !HasDelay(t) || p.budgetKey.None? then []
    else
      [BudgetRuns.Granted(SlotFor(cfg, s.book, p.budgetKey.value, t))]
      + if Sleeps(cfg, p, s, t) && t.sleeper.Fine? then [] else [BudgetRuns.Done]
  }

  /** The budget after the calls of the turn. */
  ghost function BookAfter(cfg: Config, p: Policy, s: State, t: Turn): Book
    requires ValidConfig(cfg)
  {
    if !GoesOn(p, s, t) || !HasDelay(t) || p.budgetKey.None? then s.book
    else
      var book, key := BookWith(cfg, s.book, p.budgetKey.value, t), p.budgetKey.value;
      if Sleeps(cfg, p, s, t) && t.sleeper.Fine? then book
      else ReleaseStep(cfg, book, SlotFor(cfg, s.book, key, t), t.releasedAt)
  }

  // ---------------------------------------------------------------- planning

  /** A state in which a turn taken in `s` plans its retry. */
  predicate Plans(x: State, s: State) {
    && x.book == s.book && x.runtime.attemptNumber == s.runtime.attemptNumber + 1
    && x.runtime.startedAt == s.runtime.startedAt
  }

  /** Planning fails exactly when there is no valid delay, is saturated exactly when the wait is longer
      than a day, and plans that wait otherwise. */
  lemma PlanningMeans(cfg: Config, p: Policy, s: State, x: State, t: Turn)
    requires ValidConfig(cfg) && Plans(x, s)
    ensures var (x', planning) := PlanRetryWait(cfg, p, x, t);
            && (t.backoff.NoBackoff? ==> planning == PlanningFailed(t.backoff.error))
            && (t.backoff.Seconds? && !HasDelay(t) ==> planning == PlanningFailed(InvalidConfig))
            && (!HasDelay(t) ==> x' == x)
            && (HasDelay(t) && WaitFor(cfg, p, s, t) > DAY ==> planning == Saturated)
            && (HasDelay(t) && WaitFor(cfg, p, s, t) <= DAY ==>
                  && planning.Planned? && planning.plan.totalDelay == WaitFor(cfg, p, s, t)
                  && planning.plan.policyDelay == t.backoff.ticks
                  && planning.plan.budgetDelay == WaitFor(cfg, p, s, t) - t.backoff.ticks
                  && planning.plan.reservation == if p.budgetKey.None? then None
                                                  else Some(SlotFor(cfg, s.book, p.budgetKey.value, t)))
            && (p.budgetKey.None? ==> x' == x)
            && (p.budgetKey.Some? && HasDelay(t) ==>
                  var op := BudgetRuns.Reserve(p.budgetKey.value, t.plannedAt, t.plannedAt + t.backoff.ticks);
                  var r := SlotFor(cfg, s.book, p.budgetKey.value, t);
                  var undo := BudgetRuns.Release(r, t.releasedAt);
                  && x'.trace.ops == x.trace.ops + [op] + (if planning.Saturated? then [undo] else [])
                  && x'.trace.answers == x.trace.answers + [BudgetRuns.Granted(r)]
                                         + (if planning.Saturated? then [BudgetRuns.Done] else [])
                  && var book := BookWith(cfg, s.book, p.budgetKey.value, t);
                     x'.book == if planning.Saturated? then ReleaseStep(cfg, book, r, t.releasedAt) else book)
  {
    hide ReleaseStep;
    assert DAY == MAX_SLEEP;
    if HasDelay(t) {
      assert DueAt(cfg, p, s, t) >= t.plannedAt + t.backoff.ticks;
    }
  }

  ghost function PlanOf(cfg: Config, p: Policy, s: State, t: Turn): Option<Reservation>
    requires ValidConfig(cfg) && HasDelay(t)
  {
    if p.budgetKey.None? then None else Some(SlotFor(cfg, s.book, p.budgetKey.value, t))
  }

  /** What planning the retry of a turn comes to. */
  ghost predicate Planned(cfg: Config, p: Policy, s: State, x: State, t: Turn, x': State, d: Decision)
    requires ValidConfig(cfg)
  {
    && x'.trace.sleeps == x.trace.sleeps
    && x'.trace.events == x.trace.events + (if Announces(cfg, p, s, t) then [BeforeSleep] else [])
                                         + (if Exhausts(cfg, p, s, t) then [AfterGiveup] else [])
    && PlanCalls(cfg, p, s, x, t, x', d)
    && match d
       case Wait(plan) => (
         && Sleeps(cfg, p, s, t)
         && plan.totalDelay == WaitFor(cfg, p, s, t) && plan.reservation == PlanOf(cfg, p, s, t))
       case Final(kind, _) => kind == Exhaust && Exhausts(cfg, p, s, t) && t.afterFinal.Fine?
       case Propagate(e) => (
         && !Sleeps(cfg, p, s, t) && FailsWith(cfg, p, s, t, e))
  }

  /** The calls of planning: the reservation is given back unless the decision is to wait. */
  ghost predicate PlanCalls(cfg: Config, p: Policy, s: State, x: State, t: Turn, x': State, d: Decision)
    requires ValidConfig(cfg)
  {
    if !HasDelay(t) || p.budgetKey.None? then
      x'.trace.ops == x.trace.ops && x'.trace.answers == x.trace.answers && x'.book == x.book
    else
      var op := BudgetRuns.Reserve(p.budgetKey.value, t.plannedAt, t.plannedAt + t.backoff.ticks);
      var r := SlotFor(cfg, s.book, p.budgetKey.value, t);
      && x'.trace.ops == x.trace.ops + [op] + (if d.Wait? then [] else [BudgetRuns.Release(r, t.releasedAt)])
      && x'.trace.answers == x.trace.answers + [BudgetRuns.Granted(r)] + (if d.Wait? then [] else [BudgetRuns.Done])
      && var book := BookWith(cfg, s.book, p.budgetKey.value, t);
         x'.book == if d.Wait? then book else ReleaseStep(cfg, book, r, t.releasedAt)
  }

  lemma {:induction false} PlanRetryCalls(cfg: Config, p: Policy, s: State, x: State, t: Turn, value: Value,
          error: Option<Error>, cause: Cause)
    requires ValidConfig(cfg) && Plans(x, s)
    ensures var (x', d) := PlanRetry(cfg, p, x, t, value, error, cause);
            PlanCalls(cfg, p, s, x, t, x', d)
  {
    hide StopsAt, ResultOf, PlanRetryWait, Released, ReleaseStep, SlotFor, BookWith, WaitFor, HasDelay;
    PlanningMeans(cfg, p, s, x, t);
    var (x1, planning) := PlanRetryWait(cfg, p, x, t);
    if planning.Planned? {
      ReleaseCalls(cfg, x1, planning.plan, t.releasedAt);
      ReleaseCalls(cfg, Emit(x1, BeforeSleep), planning.plan, t.releasedAt);
    }
  }

  lemma ReleaseCalls(cfg: Config, s: State, plan: Plan, current: nat)
    ensures var s' := Released(cfg, s, plan, current);
            if plan.reservation.None? then s' == s
            else
              && s'.trace.ops == s.trace.ops + [BudgetRuns.Release(plan.reservation.value, current)]
              && s'.trace.answers == s.trace.answers + [BudgetRuns.Done]
              && s'.book == ReleaseStep(cfg, s.book, plan.reservation.value, current)
  {
  }

  lemma {:induction false} PlanRetryMeans(cfg: Config, p: Policy, s: State, x: State, t: Turn, value: Value,
          error: Option<Error>, cause: Cause)
    requires ValidConfig(cfg) && Plans(x, s) && GoesOn(p, s, t)
    ensures var (x', d) := PlanRetry(cfg, p, x, t, value, error, cause);
            Planned(cfg, p, s, x, t, x', d)
  {
    hide ShouldStop, ResultOf, PlanRetryWait, Released, SlotFor, BookWith, WantsAnother, Heard, PlanCalls;
    PlanningMeans(cfg, p, s, x, t);
    PlanningIsQuiet(cfg, p, x, t);
    PlanRetryCalls(cfg, p, s, x, t, value, error, cause);
    var (x1, planning) := PlanRetryWait(cfg, p, x, t);
    if planning.Planned? {
      ReleaseIsQuiet(cfg, x1, planning.plan, t.releasedAt);
      ReleaseIsQuiet(cfg, Emit(x1, BeforeSleep), planning.plan, t.releasedAt);
    }
  }

  // ---------------------------------------------------------------- one turn

  /** How a turn ends. */
  ghost predicate Ends(cfg: Config, p: Policy, s: State, t: Turn, progress: Progress)
    requires ValidConfig(cfg)
  {
    match progress
    case Running => Sleeps(cfg, p, s, t) && t.sleeper.Fine?
    case Decided(kind, _) => (
      && t.afterFinal.Fine?
      && match kind
         case Accept => Settles(t) && t.outcome.Returned?
         case Reject => Settles(t) && t.outcome.Threw?
         case Exhaust => Exhausts(cfg, p, s, t))
    case Failed(e) => FailsWith(cfg, p, s, t, e)
  }

  /** What a turn leaves behind. */
  ghost predicate Leaves(cfg: Config, p: Policy, s: State, t: Turn, s': State)
    requires ValidConfig(cfg)
  {
    && s'.trace.events == s.trace.events + EventsOf(cfg, p, s, t)
    && s'.trace.ops == s.trace.ops + CallsOf(cfg, p, s, t)
    && s'.trace.answers == s.trace.answers + AnswersTo(cfg, p, s, t)
    && s'.book == BookAfter(cfg, p, s, t)
    && s'.trace.sleeps == s.trace.sleeps
         + if Sleeps(cfg, p, s, t) && t.sleeper.Fine? then [Sleep(t.recheckedAt, WaitFor(cfg, p, s, t))] else []
  }

  /** The ways a turn may end exclude each other, and each error it may fail with. */
  lemma EndsInOneWay(cfg: Config, p: Policy, s: State, t: Turn, a: Progress, b: Progress)
    requires ValidConfig(cfg) && Ends(cfg, p, s, t, a) && Ends(cfg, p, s, t, b)
    ensures a.Running? == b.Running? && a.Decided? == b.Decided?
    ensures a.Decided? ==> a.kind == b.kind
    ensures a.Failed? ==> a == b
  {
    hide ShouldStop, WaitFor;
  }

  /** What an attempt and the decision after it leave behind, before any sleep. */
  ghost predicate Attempted(cfg: Config, p: Policy, s: State, t: Turn, s': State, d: Decision)
    requires ValidConfig(cfg)
  {
    && s'.trace.sleeps == s.trace.sleeps
    && s'.trace.events == s.trace.events + EventsOf(cfg, p, s, t)
    && (if GoesOn(p, s, t) then PlanCalls(cfg, p, s, s, t, s', d)
        else s'.trace.ops == s.trace.ops && s'.trace.answers == s.trace.answers && s'.book == s.book)
    && match d
       case Wait(plan) => (
         && Sleeps(cfg, p, s, t)
         && plan.totalDelay == WaitFor(cfg, p, s, t) && plan.reservation == PlanOf(cfg, p, s, t))
       case Final(kind, result) => Ends(cfg, p, s, t, Decided(kind, result))
       case Propagate(e) => !Sleeps(cfg, p, s, t) && FailsWith(cfg, p, s, t, e)
  }

  /** The state in which an attempt that has begun is judged. */
  predicate Began(s: State, x: State) {
    && Plans(x, s) && x.trace == s.trace.(events := s.trace.events + [BeforeAttempt])
  }

  /** A turn that does not plan a retry. */
  lemma EventsWithoutPlan(cfg: Config, p: Policy, s: State, t: Turn)
    requires ValidConfig(cfg) && !GoesOn(p, s, t)
    ensures !Announces(cfg, p, s, t) && !Sleeps(cfg, p, s, t)
    ensures Exhausts(cfg, p, s, t) <==> Heard(t) && WantsAnother(t)
    ensures EventsOf(cfg, p, s, t)
         == [BeforeAttempt] + (if Judged(t) && t.outcome.Threw? then [AfterFailure] else [])
            + (if Settles(t) && t.outcome.Returned? then [AfterSuccess] else [])
            + (if Heard(t) && (WantsAnother(t) || t.outcome.Threw?) then [AfterGiveup] else [])
  {
    hide ShouldStop, WaitFor, WantsAnother;
  }

  /** A turn that plans a retry, from the state in which it does. */
  lemma {:induction false} AttemptedByPlan(cfg: Config, p: Policy, s: State, x: State, t: Turn, s': State, d: Decision)
    requires ValidConfig(cfg) && GoesOn(p, s, t) && Planned(cfg, p, s, x, t, s', d)
    requires x.trace.sleeps == s.trace.sleeps && x.trace.ops == s.trace.ops && x.trace.answers == s.trace.answers
    requires x.book == s.book
    requires x.trace.events == s.trace.events + [BeforeAttempt] + if t.outcome.Threw? then [AfterFailure] else []
    ensures Attempted(cfg, p, s, t, s', d)
  {
    hide ShouldStop, WaitFor, WantsAnother, Announces, Exhausts, Sleeps, HasDelay, SlotFor, FailsWith;
    var told := if t.outcome.Threw? then [AfterFailure] else [];
    var announced := if Announces(cfg, p, s, t) then [BeforeSleep] else [];
    var over := if Exhausts(cfg, p, s, t) then [AfterGiveup] else [];
    assert EventsOf(cfg, p, s, t) == [BeforeAttempt] + told + announced + over;
    ConcatAssociates(s.trace.events, [BeforeAttempt], told);
    ConcatAssociates(s.trace.events, [BeforeAttempt] + told, announced);
    ConcatAssociates(s.trace.events, [BeforeAttempt] + told + announced, over);
  }

  lemma AfterExceptionMeans(cfg: Config, p: Policy, s: State, x: State, t: Turn, e: Error)
    requires ValidConfig(cfg) && Began(s, x) && t.beforeAttempt.Fine? && t.outcome == Threw(e)
    ensures var (s', d) := AfterException(cfg, p, x, t, e);
            Attempted(cfg, p, s, t, s', d)
  {
    hide ShouldStop, ResultOf, PlanRetry, Recorded, Planned, PlanCalls, SlotFor, EventsOf, Announces, Exhausts, Sleeps;
    var (s', d) := AfterException(cfg, p, x, t, e);
    var record := Record(x.runtime.attemptNumber, x.attemptStartedAt, t.endedAt, Nothing, false, Some(e));
    var x1 := Emit(x.(runtime := Recorded(x.runtime, p.historyLimit, record)), AfterFailure);
    RecordedKeeps(x.runtime, p.historyLimit, record);
    if GoesOn(p, s, t) {
      PlanRetryMeans(cfg, p, s, x1, t, Nothing, Some(e), ByException);
      AttemptedByPlan(cfg, p, s, x1, t, s', d);
    } else {
      EventsWithoutPlan(cfg, p, s, t);
    }
  }

  lemma AfterValueMeans(cfg: Config, p: Policy, s: State, x: State, t: Turn, value: Value, hasValue: bool)
    requires ValidConfig(cfg) && Began(s, x) && t.beforeAttempt.Fine? && t.outcome == Returned(value, hasValue)
    ensures var (s', d) := AfterValue(cfg, p, x, t, value, hasValue);
            Attempted(cfg, p, s, t, s', d)
  {
    hide ShouldStop, ResultOf, PlanRetry, Recorded, Planned, PlanCalls, SlotFor, EventsOf, Announces, Exhausts, Sleeps;
    var (s', d) := AfterValue(cfg, p, x, t, value, hasValue);
    var record := Record(x.runtime.attemptNumber, x.attemptStartedAt, t.endedAt, value, hasValue, None);
    var x1 := x.(runtime := Recorded(x.runtime, p.historyLimit, record));
    RecordedKeeps(x.runtime, p.historyLimit, record);
    if GoesOn(p, s, t) {
      PlanRetryMeans(cfg, p, s, x1, t, value, None, ByResult);
      AttemptedByPlan(cfg, p, s, x1, t, s', d);
    } else {
      EventsWithoutPlan(cfg, p, s, t);
    }
  }

  lemma RecordedKeeps(rt: Runtime, limit: Option<nat>, record: Record)
    ensures var after := Recorded(rt, limit, record);
            after.attemptNumber == rt.attemptNumber && after.startedAt == rt.startedAt
  {
  }

  lemma AttemptMeans(cfg: Config, p: Policy, s: State, t: Turn)
    requires ValidConfig(cfg)
    ensures var (s', d) := Attempt(cfg, p, s, t);
            Attempted(cfg, p, s, t, s', d)
  {
    hide ShouldStop, AfterException, AfterValue, PlanCalls, SlotFor, Announces, Exhausts, Sleeps;
    var x := Emit(s.(runtime := s.runtime.(attemptNumber := s.runtime.attemptNumber + 1)), BeforeAttempt);
    if t.beforeAttempt.Fine? && t.outcome.Threw? {
      AfterExceptionMeans(cfg, p, s, x.(attemptStartedAt := t.beganAt), t, t.outcome.error);
    } else if t.beforeAttempt.Fine? && t.outcome.Returned? {
      AfterValueMeans(cfg, p, s, x.(attemptStartedAt := t.beganAt), t, t.outcome.value, t.outcome.hasValue);
    } else {
      EventsWithoutPlan(cfg, p, s, t);
    }
  }

  /** What a turn comes to: how it ends, and what it leaves behind. */
  lemma TurnMeans(cfg: Config, p: Policy, s: State, t: Turn)
    requires ValidConfig(cfg)
    ensures var (s', progress) := TakeTurn(cfg, p, s, t);
            Ends(cfg, p, s, t, progress) && Leaves(cfg, p, s, t, s')
  {
    hide ShouldStop, Attempt, EventsOf, ReleaseStep, SlotFor, WaitFor, InTime, Exhausts, Heard;
    AttemptMeans(cfg, p, s, t);
    var (s1, d) := Attempt(cfg, p, s, t);
    if GoesOn(p, s, t) && HasDelay(t) && p.budgetKey.Some? {
      var r, key := SlotFor(cfg, s.book, p.budgetKey.value, t), p.budgetKey.value;
      ConcatAssociates(s.trace.ops, [BudgetRuns.Reserve(key, t.plannedAt, t.plannedAt + t.backoff.ticks)],
                       [BudgetRuns.Release(r, t.releasedAt)]);
      ConcatAssociates(s.trace.answers, [BudgetRuns.Granted(r)], [BudgetRuns.Done]);
    }
    if d.Wait? && t.sleeper.Fails? {
      SleeperFails(cfg, p, s, t);
    }
    ExhaustedDoNotSleep(cfg, p, s, t);
  }

  lemma SleeperFails(cfg: Config, p: Policy, s: State, t: Turn)
    requires ValidConfig(cfg) && Sleeps(cfg, p, s, t) && t.sleeper.Fails?
    ensures FailsWith(cfg, p, s, t, t.sleeper.error)
  {
  }

  lemma ExhaustedDoNotSleep(cfg: Config, p: Policy, s: State, t: Turn)
    requires ValidConfig(cfg)
    ensures Settles(t) || Exhausts(cfg, p, s, t) ==> !Sleeps(cfg, p, s, t)
  {
  }
}
