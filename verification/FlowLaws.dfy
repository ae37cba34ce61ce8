/** What every run of an execution keeps, whatever the turns it is given. */
module FlowLaws {
  import opened Options
  import opened BudgetState
  import opened FlowState
  import BudgetRuns

  // ---------------------------------------------------------------- reservations

  /** The reservations of `key` this execution holds: granted to it and not given back. */
  function Holding(s: State, key: string): seq<Reservation>
    requires |s.trace.ops| == |s.trace.answers|
  {
    BudgetRuns.Outstanding(s.trace.ops, s.trace.answers, key)
  }

  ghost predicate Holds(s: State, key: string, held: seq<Reservation>) {
    |s.trace.ops| == |s.trace.answers| && Holding(s, key) == held && TokensRise(held, s.book.nextToken)
  }

  lemma ReserveHolds(cfg: Config, s: State, key: string, current: nat, notBefore: nat, held: seq<Reservation>)
    requires ValidConfig(cfg) && Holds(s, key, held)
    ensures var (s', r) := Reserved(cfg, s, key, current, notBefore);
            r.key == key && Holds(s', key, held + [r])
  {
    var (s', r) := Reserved(cfg, s, key, current, notBefore);
    var n := |s.trace.ops|;
    assert s'.trace.ops[..n] == s.trace.ops && s'.trace.answers[..n] == s.trace.answers;
    assert s'.trace.ops[n] == BudgetRuns.Reserve(key, current, notBefore)
        && s'.trace.answers[n] == BudgetRuns.Granted(r);
  }

  lemma {:induction false} RemoveLast(held: seq<Reservation>, r: Reservation)
    requires forall x :: x in held ==> x.token != r.token
    ensures RemoveToken(held + [r], r.token) == held
  {
    if held == [] {
      assert (held + [r])[1..] == [];
    } else {
      assert (held + [r])[1..] == held[1..] + [r];
      RemoveLast(held[1..], r);
    }
  }

  /** Giving back the latest reservation restores what was held before it. */
  lemma ReleaseHolds(cfg: Config, s: State, plan: Plan, key: string, current: nat, held: seq<Reservation>)
    requires plan.reservation.Some? && plan.reservation.value.key == key
    requires Holds(s, key, held + [plan.reservation.value])
    ensures Holds(Released(cfg, s, plan, current), key, held)
  {
    var r := plan.reservation.value;
    var s' := Released(cfg, s, plan, current);
    var n := |s.trace.ops|;
    assert s'.trace.ops[..n] == s.trace.ops && s'.trace.answers[..n] == s.trace.answers;
    assert s'.trace.ops[n] == BudgetRuns.Release(r, current);
    var all := held + [r];
    assert forall i :: 0 <= i < |held| ==> held[i] == all[i];
    forall x | x in held ensures x.token != r.token {
      var i :| 0 <= i < |held| && held[i] == x;
      assert all[i].token < all[|held|].token;
    }
    RemoveLast(held, r);
  }

  /** A decision to wait holds one reservation more; every other way on holds what was held before. */
  ghost predicate HoldsAfter(s: State, d: Decision, key: string, held: seq<Reservation>) {
    match d
    case Wait(plan) => (
      && plan.reservation.Some? && plan.reservation.value.key == key
      && Holds(s, key, held + [plan.reservation.value]))
    case _ => Holds(s, key, held)
  }

  /** A plan holds one reservation more; planning that does not lead to a plan holds what was held. */
  lemma PlanningHolds(cfg: Config, p: Policy, s: State, t: Turn, key: string, held: seq<Reservation>)
    requires ValidConfig(cfg) && p.budgetKey == Some(key) && Holds(s, key, held)
    ensures var (s', planning) := PlanRetryWait(cfg, p, s, t);
            if planning.Planned? then HoldsAfter(s', Wait(planning.plan), key, held) else Holds(s', key, held)
  {
    hide Reserved, Released, Holds;
    if t.backoff.Seconds? && 0 <= t.backoff.ticks <= MAX_SLEEP {
      var ticks := t.backoff.ticks;
      var notBefore := t.plannedAt + ticks;
      ReserveHolds(cfg, s, key, t.plannedAt, notBefore, held);
      var (s1, r) := Reserved(cfg, s, key, t.plannedAt, notBefore);
      var budgetDelay := if r.scheduledAt > notBefore then r.scheduledAt - notBefore else 0;
      ReleaseHolds(cfg, s1, Plan(ticks, budgetDelay, ticks + budgetDelay, Some(r)), key, t.releasedAt, held);
    }
  }

  lemma EmitHolds(s: State, e: Event, key: string, held: seq<Reservation>)
    ensures Holds(s, key, held) <==> Holds(Emit(s, e), key, held)
  {
  }

  lemma PlanRetryHolds(cfg: Config, p: Policy, s: State, t: Turn, value: Value, error: Option<Error>, cause: Cause,
          key: string, held: seq<Reservation>)
    requires ValidConfig(cfg) && p.budgetKey == Some(key) && Holds(s, key, held)
    ensures var (s', d) := PlanRetry(cfg, p, s, t, value, error, cause);
            HoldsAfter(s', d, key, held)
  {
    hide PlanRetryWait, Released, StopsAt, ResultOf, Emit, Holds;
    PlanningHolds(cfg, p, s, t, key, held);
    var (s1, planning) := PlanRetryWait(cfg, p, s, t);
    EmitHolds(s1, AfterGiveup, key, held);
    if planning.Planned? {
      var plan := planning.plan;
      var r := plan.reservation.value;
      var s2 := Emit(s1, BeforeSleep);
      EmitHolds(s1, BeforeSleep, key, held + [r]);
      ReleaseHolds(cfg, s1, plan, key, t.releasedAt, held);
      ReleaseHolds(cfg, s2, plan, key, t.releasedAt, held);
      EmitHolds(Released(cfg, s1, plan, t.releasedAt), AfterGiveup, key, held);
      EmitHolds(Released(cfg, s2, plan, t.releasedAt), AfterGiveup, key, held);
    }
  }

  lemma AttemptHolds(cfg: Config, p: Policy, s: State, t: Turn, key: string, held: seq<Reservation>)
    requires ValidConfig(cfg) && p.budgetKey == Some(key) && Holds(s, key, held)
    ensures var (s', d) := Attempt(cfg, p, s, t);
            HoldsAfter(s', d, key, held)
  {
    hide PlanRetry, StopsAt;
    forall x: State, value, error, cause | x.trace.ops == s.trace.ops && x.trace.answers == s.trace.answers
        && x.book == s.book
      ensures HoldsAfter(PlanRetry(cfg, p, x, t, value, error, cause).0,
          PlanRetry(cfg, p, x, t, value, error, cause).1, key, held)
    {
      PlanRetryHolds(cfg, p, x, t, value, error, cause, key, held);
    }
  }

  lemma TurnHolds(cfg: Config, p: Policy, s: State, t: Turn, key: string, held: seq<Reservation>)
    requires ValidConfig(cfg) && p.budgetKey == Some(key) && Holds(s, key, held)
    ensures var (s', progress) := TakeTurn(cfg, p, s, t);
            if progress.Running? then exists r :: Holds(s', key, held + [r]) else Holds(s', key, held)
  {
    hide Attempt;
    AttemptHolds(cfg, p, s, t, key, held);
    var (s1, d) := Attempt(cfg, p, s, t);
    if d.Wait? {
      var (s2, e) := Slept(cfg, s1, t, d.plan);
      if e.Some? {
        ReleaseHolds(cfg, s1, d.plan, key, t.releasedAt, held);
      } else {
        assert Holds(s2, key, held + [d.plan.reservation.value]);
      }
    }
  }

  // ---------------------------------------------------------------- attempts and sleeps

  /** An attempt counts one, and no decision touches the sleeps. */
  lemma AttemptCounts(cfg: Config, p: Policy, s: State, t: Turn)
    requires ValidConfig(cfg)
    ensures var s' := Attempt(cfg, p, s, t).0;
            && s'.runtime.attemptNumber == s.runtime.attemptNumber + 1
            && s'.runtime.startedAt == s.runtime.startedAt
            && s'.trace.sleeps == s.trace.sleeps
  {
    hide ReserveStep, ReleaseStep, StopsAt, ResultOf, Bounded;
  }

  lemma TurnCounts(cfg: Config, p: Policy, s: State, t: Turn)
    requires ValidConfig(cfg)
    ensures var (s', progress) := TakeTurn(cfg, p, s, t);
            && s'.runtime.attemptNumber == s.runtime.attemptNumber + 1
            && s'.runtime.startedAt == s.runtime.startedAt
            && |s'.trace.sleeps| == |s.trace.sleeps| + (if progress.Running? then 1 else 0)
  {
    hide Attempt, ReleaseStep;
    AttemptCounts(cfg, p, s, t);
  }

  /** The balance of a run: one reservation is held for each sleep that completed, and sleeps number
      one less than attempts once the run has ended in any way. */
  ghost predicate Balanced(s: State, key: string, progress: Progress) {
    && |s.trace.ops| == |s.trace.answers|
    && |Holding(s, key)| == |s.trace.sleeps|
    && TokensRise(Holding(s, key), s.book.nextToken)
    && s.runtime.attemptNumber == |s.trace.sleeps| + (if progress.Running? then 0 else 1)
  }

  lemma {:induction false} RunBalanced(cfg: Config, p: Policy, s: State, turns: seq<Turn>, key: string)
    requires ValidConfig(cfg) && p.budgetKey == Some(key) && Balanced(s, key, Running)
    ensures var (s', progress) := RunTurns(cfg, p, s, turns);
            Balanced(s', key, progress)
    decreases |turns|
  {
    hide TakeTurn;
    if turns != [] {
      TurnHolds(cfg, p, s, turns[0], key, Holding(s, key));
      TurnCounts(cfg, p, s, turns[0]);
      var (s1, progress) := TakeTurn(cfg, p, s, turns[0]);
      if progress.Running? {
        RunBalanced(cfg, p, s1, turns[1..], key);
      }
    }
  }

  /** Reservation conservation: however a run ends - by value, by error, in a handler, in the sleeper,
      while planning - it holds exactly one reservation per completed sleep, which is one less than
      the attempts it made. */
  lemma ReservationsAreConserved(cfg: Config, p: Policy, startedAt: nat, book: Book, turns: seq<Turn>, key: string)
    requires ValidConfig(cfg) && p.budgetKey == Some(key)
    ensures var (s, progress) := RunTurns(cfg, p, Start(startedAt, book), turns);
            && |s.trace.ops| == |s.trace.answers|
            && |Holding(s, key)| == |s.trace.sleeps|
            && (!progress.Running? ==> |Holding(s, key)| == s.runtime.attemptNumber - 1)
  {
    RunBalanced(cfg, p, Start(startedAt, book), turns, key);
  }

  /** The same run when others use the budget between its turns: turn `i` finds the book `found[i]`. */
  ghost function RunAmongOthers(cfg: Config, p: Policy, s: State, turns: seq<Turn>, found: seq<Book>): (State, Progress)
    requires ValidConfig(cfg) && |found| == |turns|
    decreases |turns|
  {
    if turns == [] then (s, Running)
    else
      var (s1, progress) := TakeTurn(cfg, p, s.(book := found[0]), turns[0]);
      if progress.Running? then RunAmongOthers(cfg, p, s1, turns[1..], found[1..]) else (s1, progress)
  }

  /** Tokens are never handed out twice, whoever asks. */
  ghost predicate TokensGrow(cfg: Config, p: Policy, s: State, turns: seq<Turn>, found: seq<Book>)
    requires ValidConfig(cfg) && |found| == |turns|
    decreases |turns|
  {
    turns != [] ==>
      && s.book.nextToken <= found[0].nextToken
      && TokensGrow(cfg, p, TakeTurn(cfg, p, s.(book := found[0]), turns[0]).0, turns[1..], found[1..])
  }

  /** Conservation does not depend on what others do with the budget. */
  lemma {:induction false} ConservedAmongOthers(cfg: Config, p: Policy, s: State, turns: seq<Turn>, found: seq<Book>,
          key: string)
    requires ValidConfig(cfg) && p.budgetKey == Some(key) && Balanced(s, key, Running)
    requires |found| == |turns| && TokensGrow(cfg, p, s, turns, found)
    ensures var (s', progress) := RunAmongOthers(cfg, p, s, turns, found);
            Balanced(s', key, progress)
    decreases |turns|
  {
    hide TakeTurn;
    if turns != [] {
      var s0 := s.(book := found[0]);
      TurnHolds(cfg, p, s0, turns[0], key, Holding(s, key));
      TurnCounts(cfg, p, s0, turns[0]);
      var (s1, progress) := TakeTurn(cfg, p, s0, turns[0]);
      if progress.Running? {
        ConservedAmongOthers(cfg, p, s1, turns[1..], found[1..], key);
      }
    }
  }

  lemma AttemptWithoutBudget(cfg: Config, p: Policy, s: State, t: Turn)
    requires ValidConfig(cfg) && p.budgetKey == None
    ensures var (s', d) := Attempt(cfg, p, s, t);
            && s'.trace.ops == s.trace.ops && s'.book == s.book
            && (d.Wait? ==> d.plan.reservation == None && d.plan.budgetDelay == 0)
  {
    hide StopsAt, ResultOf, Bounded, ReserveStep, ReleaseStep;
  }

  /** Without a budget, no run touches one. */
  lemma {:induction false} NoBudgetNoCalls(cfg: Config, p: Policy, s: State, turns: seq<Turn>)
    requires ValidConfig(cfg) && p.budgetKey == None
    ensures var s' := RunTurns(cfg, p, s, turns).0;
            s'.trace.ops == s.trace.ops && s'.book == s.book
    decreases |turns|
  {
    hide Attempt;
    if turns != [] {
      AttemptWithoutBudget(cfg, p, s, turns[0]);
      var (s1, progress) := TakeTurn(cfg, p, s, turns[0]);
      if progress.Running? {
        NoBudgetNoCalls(cfg, p, s1, turns[1..]);
      }
    }
  }

  // ---------------------------------------------------------------- events

  function FailureEvent(t: Turn): seq<Event> {
    if t.outcome.Threw? then [AfterFailure] else []
  }

  /** What a turn that goes on to the next attempt emits. */
  function RoundEvents(t: Turn): seq<Event> {
    [BeforeAttempt] + FailureEvent(t) + [BeforeSleep]
  }

  function Rounds(turns: seq<Turn>): seq<Event> {
    if turns == [] then [] else RoundEvents(turns[0]) + Rounds(turns[1..])
  }

  /** What the last turn of a run emits: it ends in exactly one after_success or after_giveup, and
      a run that gives up may have announced a sleep first. */
  predicate IsLastTurn(events: seq<Event>, t: Turn, kind: FinalKind) {
    match kind
    case Accept => t.outcome.Returned? && events == [BeforeAttempt, AfterSuccess]
    case Reject => t.outcome.Threw? && events == [BeforeAttempt, AfterFailure, AfterGiveup]
    case Exhaust =>
      || events == [BeforeAttempt] + FailureEvent(t) + [AfterGiveup]
      || events == RoundEvents(t) + [AfterGiveup]
  }

  /** What a turn has emitted when an error from outside cuts it off: part of a round or of a last turn. */
  predicate IsCutTurn(events: seq<Event>, t: Turn) {
    || events <= RoundEvents(t)
    || (exists kind :: IsLastTurn(events, t, kind))
  }

  ghost predicate TurnEvents(events: seq<Event>, t: Turn, progress: Progress) {
    match progress
    case Running => events == RoundEvents(t)
    case Decided(kind, _) => IsLastTurn(events, t, kind)
    case Failed(_) => IsCutTurn(events, t)
  }

  /** What was emitted between two states. */
  predicate Emitted(s: State, s': State, events: seq<Event>) {
    s'.trace.events == s.trace.events + events
  }

  /** The end of a turn that wants another attempt: announce a sleep, or give up, or both. */
  predicate IsTail(events: seq<Event>, d: Decision) {
    match d
    case Wait(_) => events == [BeforeSleep]
    case Final(kind, _) => kind == Exhaust && (events == [AfterGiveup] || events == [BeforeSleep, AfterGiveup])
    case Propagate(_) => (
      || events == [] || events == [BeforeSleep] || events == [AfterGiveup]
      || events == [BeforeSleep, AfterGiveup])
  }

  lemma PlanningIsQuiet(cfg: Config, p: Policy, s: State, t: Turn)
    requires ValidConfig(cfg)
    ensures var s' := PlanRetryWait(cfg, p, s, t).0;
            s'.trace.events == s.trace.events && s'.runtime == s.runtime && s'.trace.sleeps == s.trace.sleeps
  {
    hide ReserveStep, ReleaseStep;
  }

  lemma ReleaseIsQuiet(cfg: Config, s: State, plan: Plan, current: nat)
    ensures var s' := Released(cfg, s, plan, current);
            s'.trace.events == s.trace.events && s'.runtime == s.runtime && s'.trace.sleeps == s.trace.sleeps
  {
    hide ReleaseStep;
  }

  lemma PlanRetryEvents(cfg: Config, p: Policy, s: State, t: Turn, value: Value, error: Option<Error>,
          cause: Cause) returns (events: seq<Event>)
    requires ValidConfig(cfg)
    ensures var (s', d) := PlanRetry(cfg, p, s, t, value, error, cause);
            Emitted(s, s', events) && IsTail(events, d)
  {
    hide StopsAt, ResultOf, PlanRetryWait, Released;
    PlanningIsQuiet(cfg, p, s, t);
    var (s1, planning) := PlanRetryWait(cfg, p, s, t);
    events := [];
    if planning.Saturated? {
      events := [AfterGiveup];
    } else if planning.Planned? {
      var s2 := Emit(s1, BeforeSleep);
      ReleaseIsQuiet(cfg, s1, planning.plan, t.releasedAt);
      ReleaseIsQuiet(cfg, s2, planning.plan, t.releasedAt);
      if StopsAt(p, s1, t.checkedAt, planning.plan.totalDelay) {
        events := [AfterGiveup];
      } else if t.beforeSleep.Fine? && StopsAt(p, s2, t.recheckedAt, planning.plan.totalDelay) {
        events := [BeforeSleep, AfterGiveup];
      } else {
        events := [BeforeSleep];
      }
    }
  }

  /** The events of an attempt after `before_attempt`. */
  predicate IsRest(events: seq<Event>, t: Turn, d: Decision) {
    match d
    case Wait(_) => [BeforeAttempt] + events == RoundEvents(t)
    case Final(kind, _) => IsLastTurn([BeforeAttempt] + events, t, kind)
    case Propagate(_) => IsCutTurn([BeforeAttempt] + events, t)
  }

  lemma TailIsRest(events: seq<Event>, t: Turn, d: Decision)
    requires IsTail(events, d)
    ensures IsRest(FailureEvent(t) + events, t, d)
  {
    var all := [BeforeAttempt] + (FailureEvent(t) + events);
    assert all == [BeforeAttempt] + FailureEvent(t) + events;
    if d.Propagate? && |events| > 0 && events[|events| - 1] == AfterGiveup {
      assert IsLastTurn(all, t, Exhaust);
    }
  }

  lemma AfterExceptionEvents(cfg: Config, p: Policy, s: State, t: Turn, error: Error) returns (events: seq<Event>)
    requires ValidConfig(cfg) && t.outcome == Threw(error)
    ensures var (s', d) := AfterException(cfg, p, s, t, error);
            Emitted(s, s', events) && IsRest(events, t, d)
  {
    hide PlanRetry, StopsAt, ResultOf, Recorded;
    var (s', d) := AfterException(cfg, p, s, t, error);
    if !IsTryAgain(error) && t.verdict.Breaks? {
      events := [];
      TailIsRest([], t, d);
      assert IsCutTurn([BeforeAttempt] + events, t);
    } else {
      var record := Record(s.runtime.attemptNumber, s.attemptStartedAt, t.endedAt, Nothing, false, Some(error));
      var s1 := Emit(s.(runtime := Recorded(s.runtime, p.historyLimit, record)), AfterFailure);
      if t.afterFailure.Fails? {
        events := [AfterFailure];
        assert [BeforeAttempt] + events <= RoundEvents(t);
      } else if !IsTryAgain(error) && !t.verdict.WantsRetry? {
        events := [AfterFailure, AfterGiveup];
        assert IsLastTurn([BeforeAttempt] + events, t, Reject);
      } else {
        var tail: seq<Event>;
        if StopsAt(p, s1, t.endedAt, 0) {
          tail := [AfterGiveup];
        } else {
          tail := PlanRetryEvents(cfg, p, s1, t, Nothing, Some(error), ByException);
        }
        events := [AfterFailure] + tail;
        TailIsRest(tail, t, d);
      }
    }
  }

  lemma AfterValueEvents(cfg: Config, p: Policy, s: State, t: Turn, value: Value,
          hasValue: bool) returns (events: seq<Event>)
    requires ValidConfig(cfg) && t.outcome == Returned(value, hasValue)
    ensures var (s', d) := AfterValue(cfg, p, s, t, value, hasValue);
            Emitted(s, s', events) && IsRest(events, t, d)
  {
    hide PlanRetry, StopsAt, ResultOf, Recorded;
    var (s', d) := AfterValue(cfg, p, s, t, value, hasValue);
    var record := Record(s.runtime.attemptNumber, s.attemptStartedAt, t.endedAt, value, hasValue, None);
    var s1 := s.(runtime := Recorded(s.runtime, p.historyLimit, record));
    if hasValue && t.verdict.Breaks? {
      events := [];
      assert [BeforeAttempt] + events <= RoundEvents(t);
    } else if !hasValue || t.verdict.Declines? {
      events := [AfterSuccess];
      assert IsLastTurn([BeforeAttempt] + events, t, Accept);
    } else {
      if StopsAt(p, s1, t.endedAt, 0) {
        events := [AfterGiveup];
      } else {
        events := PlanRetryEvents(cfg, p, s1, t, value, None, ByResult);
      }
      TailIsRest(events, t, d);
      assert FailureEvent(t) + events == events;
    }
  }

  lemma TurnEmits(cfg: Config, p: Policy, s: State, t: Turn) returns (events: seq<Event>)
    requires ValidConfig(cfg)
    ensures var (s', progress) := TakeTurn(cfg, p, s, t);
            Emitted(s, s', events) && TurnEvents(events, t, progress)
  {
    hide AfterException, AfterValue, ReleaseStep;
    var rest: seq<Event> := [];
    var s1 := s.(runtime := s.runtime.(attemptNumber := s.runtime.attemptNumber + 1));
    var s2 := Emit(s1, BeforeAttempt).(attemptStartedAt := t.beganAt);
    assert [BeforeAttempt] + [] <= RoundEvents(t);
    if t.beforeAttempt.Fine? {
      match t.outcome
      case Aborted(_) =>
      case Threw(e) => rest := AfterExceptionEvents(cfg, p, s2, t, e);
      case Returned(value, hasValue) => rest := AfterValueEvents(cfg, p, s2, t, value, hasValue);
    }
    events := [BeforeAttempt] + rest;
    assert s.trace.events + events == s2.trace.events + rest;
  }

  /** The event language of a run: every turn but the last announces its sleep, and the last one
      ends as its decision says, or was cut off by an error from outside. */
  lemma {:induction false} EventLanguage(cfg: Config, p: Policy, s: State, turns: seq<Turn>) returns (n: nat,
          last: seq<Event>)
    requires ValidConfig(cfg)
    ensures var (s', progress) := RunTurns(cfg, p, s, turns);
            && n <= |turns| && s'.runtime.attemptNumber == s.runtime.attemptNumber + n
            && (progress.Running? ==> n == |turns| && Emitted(s, s', Rounds(turns)))
            && (!progress.Running? ==>
                  0 < n && Emitted(s, s', Rounds(turns[..n - 1]) + last) && TurnEvents(last, turns[n - 1], progress))
    decreases |turns|
  {
    hide TakeTurn, RoundEvents, IsLastTurn, IsCutTurn;
    n, last := 0, [];
    if turns != [] {
      var events := TurnEmits(cfg, p, s, turns[0]);
      TurnCounts(cfg, p, s, turns[0]);
      var (s1, progress) := TakeTurn(cfg, p, s, turns[0]);
      if progress.Running? {
        n, last := EventLanguage(cfg, p, s1, turns[1..]);
        n := n + 1;
        RoundsCons(turns);
        ConcatAssociates(s.trace.events, events, Rounds(turns[1..]));
        if n > 1 {
          ConcatAssociates(s.trace.events, events, Rounds(turns[1..][..n - 2]) + last);
          ConcatAssociates(events, Rounds(turns[1..][..n - 2]), last);
          assert turns[..n - 1][1..] == turns[1..][..n - 2];
          RoundsCons(turns[..n - 1]);
        }
      } else {
        n, last := 1, events;
        assert turns[..0] == [];
      }
    }
  }

  lemma ConcatAssociates<T>(a: seq<T>, b: seq<T>, c: seq<T>)
    ensures a + b + c == a + (b + c)
  {
  }

  lemma RoundsCons(turns: seq<Turn>)
    requires turns != []
    ensures Rounds(turns) == RoundEvents(turns[0]) + Rounds(turns[1..])
  {
  }

  predicate IsEnd(e: Event) {
    e == AfterSuccess || e == AfterGiveup
  }

  lemma {:induction false} RoundsGoOn(turns: seq<Turn>, i: nat)
    requires i < |Rounds(turns)|
    ensures !IsEnd(Rounds(turns)[i])
  {
    var head := RoundEvents(turns[0]);
    assert Rounds(turns) == head + Rounds(turns[1..]);
    if i >= |head| {
      RoundsGoOn(turns[1..], i - |head|);
    }
  }

  /** Only the last event of a last turn tells of an end. */
  lemma LastTurnEnds(events: seq<Event>, t: Turn, kind: FinalKind)
    requires IsLastTurn(events, t, kind)
    ensures events != [] && (forall i :: 0 <= i < |events| - 1 ==> !IsEnd(events[i]))
    ensures events[|events| - 1] == if kind == Accept then AfterSuccess else AfterGiveup
  {
  }

  lemma EndsJoined(a: seq<Event>, b: seq<Event>)
    requires forall i :: 0 <= i < |a| ==> !IsEnd(a[i])
    requires b != [] && forall i :: 0 <= i < |b| - 1 ==> !IsEnd(b[i])
    ensures forall i :: 0 <= i < |a + b| - 1 ==> !IsEnd((a + b)[i])
  {
  }

  /** A run that comes to a decision tells so exactly once, as its last event, and truthfully. */
  lemma EndIsToldOnce(cfg: Config, p: Policy, startedAt: nat, book: Book, turns: seq<Turn>)
    requires ValidConfig(cfg)
    ensures var (s, progress) := RunTurns(cfg, p, Start(startedAt, book), turns);
            progress.Decided? ==>
              var events := s.trace.events;
              && events != [] && (forall i :: 0 <= i < |events| - 1 ==> !IsEnd(events[i]))
              && events[|events| - 1] == if progress.kind == Accept then AfterSuccess else AfterGiveup
  {
    hide RunTurns, Rounds, IsLastTurn, IsCutTurn, IsEnd;
    var s0 := Start(startedAt, book);
    var (s, progress) := RunTurns(cfg, p, s0, turns);
    var n, last := EventLanguage(cfg, p, s0, turns);
    if progress.Decided? {
      var rounds := Rounds(turns[..n - 1]);
      assert s.trace.events == rounds + last;
      LastTurnEnds(last, turns[n - 1], progress.kind);
      forall i | 0 <= i < |rounds| ensures !IsEnd(rounds[i]) {
        RoundsGoOn(turns[..n - 1], i);
      }
      EndsJoined(rounds, last);
    }
  }
}
