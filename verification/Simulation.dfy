/** The simulated timeline of a policy, and the real execution it stands for. */
module Simulation {
  import opened Options
  import opened Stops
  import opened BudgetState
  import opened FlowState
  import opened FlowLimits
  import opened LegalityTests
  import Bursts
  import Delays

  // ---------------------------------------------------------------- user callbacks

  predicate HasCallback(isCallback: nat -> bool, ids: seq<nat>) {
    exists i :: 0 <= i < |ids| && isCallback(ids[i])
  }

  lemma {:induction false} SizeConcat(a: seq<Delays.Tree>, b: seq<Delays.Tree>)
    ensures Delays.SizeOf(a + b) == Delays.SizeOf(a) + Delays.SizeOf(b)
  {
    if a == [] {
      assert a + b == b;
    } else {
      assert (a + b)[1..] == a[1..] + b;
      SizeConcat(a[1..], b);
    }
  }

  lemma {:induction false} CallbackConcat(isCallback: nat -> bool, a: seq<Delays.Tree>, b: seq<Delays.Tree>)
    ensures HasCallback(isCallback, Delays.LeavesOf(a + b))
       <==> HasCallback(isCallback, Delays.LeavesOf(a)) || HasCallback(isCallback, Delays.LeavesOf(b))
  {
    if a == [] {
      assert a + b == b;
    } else {
      assert (a + b)[1..] == a[1..] + b;
      CallbackConcat(isCallback, a[1..], b);
      CallbackJoin(isCallback, Delays.Leaves(a[0]), Delays.LeavesOf(a[1..] + b));
      CallbackJoin(isCallback, Delays.Leaves(a[0]), Delays.LeavesOf(a[1..]));
    }
  }

  lemma CallbackJoin(isCallback: nat -> bool, x: seq<nat>, y: seq<nat>)
    ensures HasCallback(isCallback, x + y) <==> HasCallback(isCallback, x) || HasCallback(isCallback, y)
  {
    forall i | 0 <= i < |y| && isCallback(y[i]) ensures HasCallback(isCallback, x + y) {
      assert (x + y)[|x| + i] == y[i];
    }
    forall i | 0 <= i < |x| && isCallback(x[i]) ensures HasCallback(isCallback, x + y) {
      assert (x + y)[i] == x[i];
    }
  }

  lemma OneLeft(isCallback: nat -> bool, t: Delays.Tree)
    ensures Delays.LeavesOf([t]) == Delays.Leaves(t) && Delays.SizeOf([t]) == Delays.Size(t)
  {
    assert [t][1..] == [];
    assert Delays.LeavesOf([t]) == Delays.Leaves(t) + Delays.LeavesOf([]);
  }

  /** Does any node of the tree wrap a user callback? An explicit stack, so that deep trees are no problem. */
  method HasUserCallback(isCallback: nat -> bool, strategy: Delays.Tree) returns (found: bool)
    ensures found <==> HasCallback(isCallback, Delays.Leaves(strategy))
  {
    var stack := [strategy];
    OneLeft(isCallback, strategy);
    while stack != []
      invariant HasCallback(isCallback, Delays.LeavesOf(stack)) <==> HasCallback(isCallback, Delays.Leaves(strategy))
      decreases Delays.SizeOf(stack)
    {
      var rest, current := stack[..|stack| - 1], stack[|stack| - 1];
      assert stack == rest + [current];
      SizeConcat(rest, [current]);
      CallbackConcat(isCallback, rest, [current]);
      OneLeft(isCallback, current);
      stack := rest;
      match current {
        case Leaf(id) =>
          if isCallback(id) {
            assert Delays.Leaves(current)[0] == id;
            return true;
          }
        case Additive(strategies) =>
          SizeConcat(rest, strategies);
          CallbackConcat(isCallback, rest, strategies);
          stack := rest + strategies;
      }
    }
    return false;
  }

  // ---------------------------------------------------------------- the timeline

  /** What follows one simulated attempt. */
  datatype Step = Step(number: nat, delay: nat, stops: bool, cumulative: nat)

  datatype Timeline = Steps(steps: seq<Step>) | Refused(error: Error)

  datatype Resolved = Delay(ticks: nat) | Invalid(error: Error)

  /** A delay that may be slept, or the error that resolving it raises. */
  function Resolve(backoff: Backoff): Resolved {
    match backoff
    case NoBackoff(e) => Invalid(e)
    case Seconds(ticks) => if ticks < 0 || ticks > MAX_SLEEP then Invalid(InvalidConfig) else Delay(ticks)
  }

  function Prepend(step: Step, rest: Timeline): Timeline {
    if rest.Refused? then rest else Steps([step] + rest.steps)
  }

  /** The next `k` attempts from number `n` on, when `elapsed` has been slept so far. */
  function Simulated(stop: Stop, delays: nat -> Backoff, n: nat, elapsed: nat, k: nat): Timeline
    decreases k
  {
    if k == 0 then Steps([])
    else if ShouldStop(stop, n, elapsed) then Steps([Step(n, 0, true, elapsed)])
    else
      match Resolve(delays(n))
      case Invalid(e) => Refused(e)
      case Delay(d) =>
        if ShouldStop(stop, n, elapsed + d) then Steps([Step(n, 0, true, elapsed)])
        else Prepend(Step(n, d, false, elapsed + d), Simulated(stop, delays, n + 1, elapsed + d, k - 1))
  }

  function Append(steps: seq<Step>, rest: Timeline): Timeline {
    if rest.Refused? then rest else Steps(steps + rest.steps)
  }

  lemma AppendPrepend(steps: seq<Step>, step: Step, rest: Timeline)
    ensures Append(steps, Prepend(step, rest)) == Append(steps + [step], rest)
  {
    if rest.Steps? {
      assert steps + ([step] + rest.steps) == steps + [step] + rest.steps;
    }
  }

  /** Delays that run user callbacks are refused. */
  function Safe(delays: nat -> Backoff, hasCallback: bool): nat -> Backoff {
    if hasCallback then _ => NoBackoff(InvalidConfig) else delays
  }

  lemma SimulatedUnfolds(stop: Stop, delays: nat -> Backoff, steps: seq<Step>, n: nat, elapsed: nat, k: nat)
    requires k > 0
    ensures var all := Append(steps, Simulated(stop, delays, n, elapsed, k));
            if ShouldStop(stop, n, elapsed) then all == Steps(steps + [Step(n, 0, true, elapsed)])
            else
              match Resolve(delays(n))
              case Invalid(e) => all == Refused(e)
              case Delay(d) =>
                if ShouldStop(stop, n, elapsed + d) then all == Steps(steps + [Step(n, 0, true, elapsed)])
                else all == Append(steps + [Step(n, d, false, elapsed + d)],
                    Simulated(stop, delays, n + 1, elapsed + d, k - 1))
  {
    if Resolve(delays(n)).Delay? {
      var d := Resolve(delays(n)).ticks;
      AppendPrepend(steps, Step(n, d, false, elapsed + d), Simulated(stop, delays, n + 1, elapsed + d, k - 1));
    }
  }

  /** The loop that computes a timeline. `delays` is what the delay strategy returns or raises for each
      attempt number. A strategy that runs user callbacks is refused as soon as a delay is needed. */
  method SimulatePolicy(stop: Stop, delays: nat -> Backoff, strategy: Delays.Tree, isCallback: nat -> bool,
          attempts: int)
    returns (r: Timeline)
    ensures attempts <= 0 ==> r == Refused(InvalidConfig)
    ensures attempts > 0 ==> r == Simulated(stop, Safe(delays, HasCallback(isCallback, Delays.Leaves(strategy))), 1,
        0, attempts)
  {
    hide ShouldStop, HasCallback, Delays.Leaves, Simulated, Append, Resolve;
    if attempts <= 0 {
      return Refused(InvalidConfig);
    }
    ghost var safe := Safe(delays, HasCallback(isCallback, Delays.Leaves(strategy)));
    var steps: seq<Step> := [];
    var elapsed, cumulative := 0, 0;
    var number := 1;
    AppendToNone(Simulated(stop, safe, 1, 0, attempts));
    while number < attempts + 1
      invariant 1 <= number <= attempts + 1 && cumulative == elapsed >= 0
      invariant Simulated(stop, safe, 1, 0, attempts)
          == Append(steps, Simulated(stop, safe, number, elapsed, attempts + 1 - number))
    {
      SimulatedUnfolds(stop, safe, steps, number, elapsed, attempts + 1 - number);
      var shouldStop := ShouldStop(stop, number, elapsed);
      var delay := 0;
      if !shouldStop {
        var refused := HasUserCallback(isCallback, strategy);
        if refused {
          RefusedDelay();
          return Refused(InvalidConfig);
        }
        var resolved := Resolve(delays(number));
        if resolved.Invalid? {
          return Refused(resolved.error);
        }
        delay := resolved.ticks;
        if ShouldStop(stop, number, elapsed + delay) {
          shouldStop := true;
          delay := 0;
        }
      }
      cumulative := cumulative + delay;
      steps := steps + [Step(number, delay, shouldStop, cumulative)];
      elapsed := elapsed + delay;
      if shouldStop {
        return Steps(steps);
      }
      number := number + 1;
    }
    NothingLeft(stop, safe, number, elapsed, steps);
    return Steps(steps);
  }

  lemma AppendToNone(rest: Timeline)
    ensures Append([], rest) == rest
  {
    if rest.Steps? {
      assert [] + rest.steps == rest.steps;
    }
  }

  lemma RefusedDelay()
    ensures Resolve(NoBackoff(InvalidConfig)) == Invalid(InvalidConfig)
  {
  }

  lemma NothingLeft(stop: Stop, delays: nat -> Backoff, n: nat, elapsed: nat, steps: seq<Step>)
    ensures Append(steps, Simulated(stop, delays, n, elapsed, 0)) == Steps(steps)
  {
  }

  // ---------------------------------------------------------------- the real execution

  /** An attempt that is to be repeated: it raises, or it returns a value. */
  predicate CanFail(outcome: Outcome) {
    !outcome.Aborted? && (outcome.Returned? ==> outcome.hasValue)
  }

  /** Attempt number `n` at time `now`: it takes no time and asks for a retry, no handler fails, and
      the sleeper works. */
  function IdealTurn(delays: nat -> Backoff, outcomes: nat -> Outcome, n: nat, now: nat): Turn {
    Turn(Fine, now, outcomes(n), WantsRetry, now, Fine, delays(n), now, now, Fine, now, now, now, Fine, Fine)
  }

  /** `k` such attempts, where sleeping takes exactly its delay. */
  function Ideal(delays: nat -> Backoff, outcomes: nat -> Outcome, n: nat, now: nat, k: nat): (turns: seq<Turn>)
    ensures |turns| == k
    decreases k
  {
    if k == 0 then []
    else
      var slept := match Resolve(delays(n)) case Delay(d) => d case Invalid(_) => 0;
      [IdealTurn(delays, outcomes, n, now)] + Ideal(delays, outcomes, n + 1, now + slept, k - 1)
  }

  /** The sleeps of a timeline that begins at `now`. */
  function SleepsOf(steps: seq<Step>, now: nat): seq<Sleep> {
    if steps == [] then []
    else (if steps[0].stops then [] else [Sleep(now, steps[0].delay)]) + SleepsOf(steps[1..], now + steps[0].delay)
  }

  /** One ideal attempt of a policy without a budget sleeps as the timeline says, or ends. */
  lemma IdealTurnStep(cfg: Config, p: Policy, s: State, delays: nat -> Backoff, outcomes: nat -> Outcome, now: nat)
    requires ValidConfig(cfg) && p.budgetKey == None && now >= s.runtime.startedAt
    requires CanFail(outcomes(s.runtime.attemptNumber + 1))
    ensures var n, elapsed := s.runtime.attemptNumber + 1, now - s.runtime.startedAt;
            var (s', progress) := TakeTurn(cfg, p, s, IdealTurn(delays, outcomes, n, now));
            && s'.runtime.attemptNumber == n && s'.runtime.startedAt == s.runtime.startedAt
            && if ShouldStop(p.stop, n, elapsed) then progress.Decided? && progress.kind == Exhaust
                && s'.trace.sleeps == s.trace.sleeps
               else
                 match Resolve(delays(n))
                 case Invalid(e) => progress == Failed(e) && s'.trace.sleeps == s.trace.sleeps
                 case Delay(d) =>
                   if ShouldStop(p.stop, n, elapsed + d) then
                     progress.Decided? && progress.kind == Exhaust && s'.trace.sleeps == s.trace.sleeps
                   else progress.Running? && s'.trace.sleeps == s.trace.sleeps + [Sleep(now, d)]
  {
    hide ShouldStop, ResultOf, Bounded, ReserveStep, ReleaseStep;
  }

  /** The last attempt of a timeline stops. */
  predicate EndsInStop(steps: seq<Step>) {
    steps != [] && steps[|steps| - 1].stops
  }

  predicate Numbered(steps: seq<Step>, n: nat) {
    forall i :: 0 <= i < |steps| ==> steps[i].number == n + 1 + i && (steps[i].stops ==> i == |steps| - 1)
  }

  /** Each step says how much has been slept by then. */
  predicate Accumulates(steps: seq<Step>, elapsed: int) {
    steps != [] ==> steps[0].cumulative == elapsed + steps[0].delay && Accumulates(steps[1..], elapsed + steps[0].delay)
  }

  function Slept(sleeps: seq<Sleep>): nat {
    if sleeps == [] then 0 else sleeps[0].ticks + Slept(sleeps[1..])
  }

  /** The execution has slept and ended, or goes on, as the timeline of its next `k` attempts says. */
  ghost predicate RanLike(timeline: Timeline, k: nat, now: nat, s: State, s': State, progress: Progress) {
    if timeline.Refused? then progress == Failed(timeline.error)
    else
      && s'.runtime.attemptNumber == s.runtime.attemptNumber + |timeline.steps|
      && s'.trace.sleeps == s.trace.sleeps + SleepsOf(timeline.steps, now)
      && Numbered(timeline.steps, s.runtime.attemptNumber) && Accumulates(timeline.steps, now - s.runtime.startedAt)
      && if EndsInStop(timeline.steps) then progress.Decided? && progress.kind == Exhaust
         else progress.Running? && |timeline.steps| == k
  }

  lemma RanToStop(step: Step, k: nat, now: nat, s: State, s': State, progress: Progress)
    requires k > 0 && step.stops && step.number == s.runtime.attemptNumber + 1
    requires s'.runtime.attemptNumber == s.runtime.attemptNumber + 1 && s'.trace.sleeps == s.trace.sleeps
    requires progress.Decided? && progress.kind == Exhaust
    requires step.delay == 0 && step.cumulative == now - s.runtime.startedAt
    ensures RanLike(Steps([step]), k, now, s, s', progress)
  {
    assert [step][1..] == [];
  }

  lemma RanNothing(now: nat, s: State)
    ensures RanLike(Steps([]), 0, now, s, s, Running)
  {
  }

  lemma RanRefused(e: Error, k: nat, now: nat, s: State, s': State)
    ensures RanLike(Refused(e), k, now, s, s', Failed(e))
  {
  }

  /** One sleep, and then as the rest of the timeline says. */
  lemma RanOn(step: Step, rest: Timeline, k: nat, now: nat, s: State, s1: State, s': State, progress: Progress)
    requires k > 0 && !step.stops && step.number == s.runtime.attemptNumber + 1
    requires s1.runtime.attemptNumber == s.runtime.attemptNumber + 1
    requires s1.trace.sleeps == s.trace.sleeps + [Sleep(now, step.delay)]
    requires s1.runtime.startedAt == s.runtime.startedAt && step.cumulative == now - s.runtime.startedAt + step.delay
    requires RanLike(rest, k - 1, now + step.delay, s1, s', progress)
    ensures RanLike(Prepend(step, rest), k, now, s, s', progress)
  {
    if rest.Steps? {
      var steps := [step] + rest.steps;
      assert steps[1..] == rest.steps;
      assert s'.trace.sleeps == s.trace.sleeps + ([Sleep(now, step.delay)] + SleepsOf(rest.steps, now + step.delay));
    }
  }

  lemma {:induction false} RunIsSimulated(cfg: Config, p: Policy, s: State, delays: nat -> Backoff,
          outcomes: nat -> Outcome, now: nat, k: nat)
    requires ValidConfig(cfg) && p.budgetKey == None && now >= s.runtime.startedAt
    requires forall n: nat :: CanFail(outcomes(n))
    ensures var n := s.runtime.attemptNumber;
            var (s', progress) := RunTurns(cfg, p, s, Ideal(delays, outcomes, n + 1, now, k));
            RanLike(Simulated(p.stop, delays, n + 1, now - s.runtime.startedAt, k), k, now, s, s', progress)
    decreases k
  {
    hide TakeTurn, ShouldStop, IdealTurn, CanFail, RanLike, Prepend;
    if k == 0 {
      RanNothing(now, s);
    } else {
      var n, elapsed := s.runtime.attemptNumber + 1, now - s.runtime.startedAt;
      assert CanFail(outcomes(n));
      IdealTurnStep(cfg, p, s, delays, outcomes, now);
      var (s1, progress) := TakeTurn(cfg, p, s, IdealTurn(delays, outcomes, n, now));
      var turns := Ideal(delays, outcomes, n, now, k);
      assert turns[0] == IdealTurn(delays, outcomes, n, now);
      if progress.Running? {
        var d := Resolve(delays(n)).ticks;
        assert turns[1..] == Ideal(delays, outcomes, n + 1, now + d, k - 1);
        RunIsSimulated(cfg, p, s1, delays, outcomes, now + d, k - 1);
        var rest := Simulated(p.stop, delays, n + 1, elapsed + d, k - 1);
        var (s', end) := RunTurns(cfg, p, s1, turns[1..]);
        RanOn(Step(n, d, false, elapsed + d), rest, k, now, s, s1, s', end);
      } else if progress.Decided? {
        RanToStop(Step(n, 0, true, elapsed), k, now, s, s1, progress);
      } else {
        RanRefused(progress.error, k, now, s, s1);
      }
    }
  }

  /** What a step says has been slept is what the sleeps up to it add up to. */
  lemma {:induction false} CumulativeIsSlept(steps: seq<Step>, now: nat, elapsed: nat, i: nat, n: nat)
    requires Accumulates(steps, elapsed) && i < |steps| && Numbered(steps, n)
    requires forall j :: 0 <= j < |steps| && steps[j].stops ==> steps[j].delay == 0
    ensures steps[i].cumulative == elapsed + Slept(SleepsOf(steps[..i + 1], now))
  {
    var first, rest := steps[0], steps[..i + 1][1..];
    assert rest == steps[1..][..i];
    if i == 0 {
      assert rest == [];
    } else {
      assert !first.stops;
      var next := SleepsOf(rest, now + first.delay);
      assert ([Sleep(now, first.delay)] + next)[1..] == next;
      assert forall j :: 0 <= j < |steps[1..]| ==> steps[1..][j] == steps[j + 1];
      CumulativeIsSlept(steps[1..], now + first.delay, elapsed + first.delay, i - 1, n + 1);
    }
  }

  /** The simulation is faithful: its timeline lists exactly the sleeps, the attempts and the stop of
      the execution in which every attempt fails at once and sleeping takes exactly its delay, with the
      time slept by each attempt; and it is refused with the error that ends that execution. */
  lemma SimulationIsFaithful(cfg: Config, p: Policy, delays: nat -> Backoff, outcomes: nat -> Outcome, startedAt: nat,
          book: Book, k: nat)
    requires ValidConfig(cfg) && p.budgetKey == None
    requires forall n: nat :: CanFail(outcomes(n))
    ensures var s0 := Start(startedAt, book);
            var (s, progress) := RunTurns(cfg, p, s0, Ideal(delays, outcomes, 1, startedAt, k));
            var timeline := Simulated(p.stop, delays, 1, 0, k);
            && RanLike(timeline, k, startedAt, s0, s, progress)
            && (timeline.Steps? ==> forall i :: 0 <= i < |timeline.steps| ==>
                  timeline.steps[i].cumulative == Slept(SleepsOf(timeline.steps[..i + 1], startedAt)))
  {
    hide RunTurns, Simulated, SleepsOf, Slept;
    RunIsSimulated(cfg, p, Start(startedAt, book), delays, outcomes, startedAt, k);
    var timeline := Simulated(p.stop, delays, 1, 0, k);
    if timeline.Steps? {
      StopsDoNotDelay(p.stop, delays, 1, 0, k);
      forall i | 0 <= i < |timeline.steps|
        ensures timeline.steps[i].cumulative == Slept(SleepsOf(timeline.steps[..i + 1], startedAt))
      {
        CumulativeIsSlept(timeline.steps, startedAt, 0, i, 0);
      }
    }
  }

  lemma {:induction false} StopsDoNotDelay(stop: Stop, delays: nat -> Backoff, n: nat, elapsed: nat, k: nat)
    ensures var timeline := Simulated(stop, delays, n, elapsed, k);
            timeline.Steps? ==>
              forall i :: 0 <= i < |timeline.steps| && timeline.steps[i].stops ==> timeline.steps[i].delay == 0
    decreases k
  {
    hide ShouldStop;
    if k > 0 && Resolve(delays(n)).Delay? {
      var d := Resolve(delays(n)).ticks;
      StopsDoNotDelay(stop, delays, n + 1, elapsed + d, k - 1);
      var rest := Simulated(stop, delays, n + 1, elapsed + d, k - 1);
      if rest.Steps? {
        var step := Step(n, d, false, elapsed + d);
        assert forall i :: 0 < i < |[step] + rest.steps| ==> ([step] + rest.steps)[i] == rest.steps[i - 1];
        assert Prepend(step, rest).steps == [step] + rest.steps;
      }
    }
  }

  // ---------------------------------------------------------------- the attempt limit is attained

  /** How many of the attempts from number `n` on a strategy allows when no time passes. */
  function Allowed(limit: Limit, n: nat, k: nat): int {
    if limit.Known? && limit.n < n + k then limit.n - n + 1 else k
  }

  lemma {:induction false} UnhurriedTimeline(stop: Stop, delays: nat -> Backoff, n: nat, k: nat)
    requires WellFormed(stop) && PositiveTimeLimits(stop) && forall i: nat :: delays(i) == Seconds(0)
    requires AttemptLimit(stop).Known? ==> n <= AttemptLimit(stop).n
    ensures var timeline := Simulated(stop, delays, n, 0, k);
            && timeline.Steps? && |timeline.steps| == Allowed(AttemptLimit(stop), n, k)
            && (EndsInStop(timeline.steps) <==> Reaches(n + k - 1, AttemptLimit(stop)))
    decreases k
  {
    hide ShouldStop, AttemptLimit, PositiveTimeLimits, WellFormed;
    if k > 0 {
      LimitIsLeast(stop, n);
      if !ShouldStop(stop, n, 0) {
        UnhurriedTimeline(stop, delays, n + 1, k - 1);
      }
    }
  }

  /** The attempt limit is attained: with positive time limits and no delays, the execution whose
      attempts all fail at once makes exactly as many attempts as the known limit allows and is then
      exhausted; without a known limit it never ends. */
  lemma LimitIsAttained(cfg: Config, p: Policy, delays: nat -> Backoff, outcomes: nat -> Outcome, startedAt: nat,
          book: Book, k: nat)
    requires ValidConfig(cfg) && ValidPolicy(p) && p.budgetKey == None && PositiveTimeLimits(p.stop)
    requires (forall n: nat :: CanFail(outcomes(n))) && forall n: nat :: delays(n) == Seconds(0)
    ensures var (s, progress) := RunTurns(cfg, p, Start(startedAt, book), Ideal(delays, outcomes, 1, startedAt, k));
            && s.runtime.attemptNumber == Allowed(AttemptLimit(p.stop), 1, k)
            && if Reaches(k, AttemptLimit(p.stop)) then progress.Decided? && progress.kind == Exhaust
                else progress.Running?
  {
    hide RunTurns, Simulated, AttemptLimit, PositiveTimeLimits;
    SimulationIsFaithful(cfg, p, delays, outcomes, startedAt, book, k);
    if AttemptLimit(p.stop).Known? {
      LimitIsPositive(p.stop);
    }
    UnhurriedTimeline(p.stop, delays, 1, k);
  }

  /** The load estimate is attained: executions without delays whose attempts all fail at once make together
      exactly the estimated number of calls, once their scripts are long enough; without an estimate they make
      as many as their scripts have. */
  lemma LoadEstimateIsAttained(cfg: Config, p: Policy, delays: nat -> Backoff, outcomes: nat -> Outcome, startedAt: nat,
          book: Book, k: nat, executions: nat)
    requires ValidConfig(cfg) && ValidPolicy(p) && p.budgetKey == None && PositiveTimeLimits(p.stop) && executions > 0
    requires (forall n: nat :: CanFail(outcomes(n))) && forall n: nat :: delays(n) == Seconds(0)
    ensures var launch := Launch(startedAt, book, Ideal(delays, outcomes, 1, startedAt, k));
            var maximum := MaximumTotalCalls(p.stop, executions);
            var calls := TotalCalls(cfg, p, Copies(launch, executions));
            && (maximum.Known? <==> AttemptLimit(p.stop).Known?)
            && (maximum.Known? && k >= AttemptLimit(p.stop).n ==> calls == maximum.n)
            && (maximum.Unknown? ==> calls == executions * k)
  {
    hide RunTurns, AttemptLimit, EstimateAttempts, TotalCalls, PositiveTimeLimits, Ideal, CanFail;
    var launch := Launch(startedAt, book, Ideal(delays, outcomes, 1, startedAt, k));
    LimitIsAttained(cfg, p, delays, outcomes, startedAt, book, k);
    EstimateAgrees(p.stop);
    CallsOfCopies(cfg, p, launch, executions);
    if AttemptLimit(p.stop).Known? {
      LimitIsPositive(p.stop);
      var n := AttemptLimit(p.stop).n;
      assert executions * n == executions + executions * (n - 1);
    }
  }

  lemma {:induction false} CallsOfCopies(cfg: Config, p: Policy, launch: Launch, executions: nat)
    requires ValidConfig(cfg)
    ensures TotalCalls(cfg, p, Copies(launch, executions))
         == executions * RunTurns(cfg, p, Start(launch.startedAt, launch.book), launch.turns).0.runtime.attemptNumber
  {
    hide RunTurns;
    if executions > 0 {
      CallsOfCopies(cfg, p, launch, executions - 1);
      assert Copies(launch, executions)[1..] == Copies(launch, executions - 1);
      var n := RunTurns(cfg, p, Start(launch.startedAt, launch.book), launch.turns).0.runtime.attemptNumber;
      assert executions * n == n + (executions - 1) * n;
    }
  }

  // ---------------------------------------------------------------- what the strategies of the library allow

  function Least(m: nat, n: nat): nat {
    if m < n then m else n
  }

  /** "After n attempts" allows exactly `n`; any of two such limits allows the smaller, both the greater. */
  lemma AttemptStrategiesAllow(cfg: Config, p: Policy, delays: nat -> Backoff, outcomes: nat -> Outcome, startedAt: nat,
          book: Book, k: nat, m: nat, n: nat)
    requires ValidConfig(cfg) && ValidPolicy(p) && p.budgetKey == None && 0 < m && 0 < n
    requires (forall i: nat :: CanFail(outcomes(i))) && forall i: nat :: delays(i) == Seconds(0)
    ensures var turns := Ideal(delays, outcomes, 1, startedAt, k);
            var attempts := RunTurns(cfg, p, Start(startedAt, book), turns).0.runtime.attemptNumber;
            && (p.stop == AfterAttempt(n) ==> attempts == Least(n, k))
            && (p.stop == Any([AfterAttempt(m), AfterAttempt(n)]) ==> attempts == Least(Least(m, n), k))
            && (p.stop == All([AfterAttempt(m), AfterAttempt(n)]) ==> attempts == Least(m + n - Least(m, n), k))
            && (p.stop == Forever ==> attempts == k)
  {
    hide RunTurns, Ideal, CanFail;
    LimitsOfTwo(m, n);
    if PositiveTimeLimits(p.stop) {
      LimitIsAttained(cfg, p, delays, outcomes, startedAt, book, k);
    }
  }

  lemma {:induction false} LimitsOfTwo(m: nat, n: nat)
    ensures var two := [AfterAttempt(m), AfterAttempt(n)];
            && AttemptLimit(Any(two)) == Known(Least(m, n)) && AttemptLimit(All(two)) == Known(m + n - Least(m, n))
            && PositiveTimeLimits(Any(two)) && PositiveTimeLimits(All(two))
  {
    var two := [AfterAttempt(m), AfterAttempt(n)];
    assert AttemptLimits(two) == [Known(m), Known(n)];
    TwoLimits(Known(m), Known(n));
  }

  lemma {:induction false} TwoLimits(a: Limit, b: Limit)
    requires a.Known? && b.Known?
    ensures LeastKnown([a, b]) == Lower(a, b) && GreatestIfAllKnown([a, b]) == Higher(a, b)
  {
    assert [a, b][1..] == [b] && [b][1..] == [];
    assert LeastKnown([b]) == b && GreatestIfAllKnown([b]) == b;
  }

  lemma {:induction false} TimelineUnderTimeLimit(limit: nat, d: nat, n: nat, m: nat, elapsed: nat, k: nat)
    requires 0 < d <= MAX_SLEEP && 1 <= m <= n && elapsed == (m - 1) * d && (n - 1) * d < limit <= n * d
    ensures var timeline := Simulated(AfterDelay(limit), _ => Seconds(d), m, elapsed, k);
            && timeline.Steps? && |timeline.steps| == Least(n - m + 1, k)
            && (EndsInStop(timeline.steps) <==> k >= n - m + 1)
    decreases k
  {
    if k > 0 {
      assert m * d == (m - 1) * d + d;
      if m < n {
        Bursts.MultiplesApart(m - 1, n - 1, d);
        TimelineUnderTimeLimit(limit, d, n, m + 1, elapsed + d, k - 1);
      }
    }
  }

  /** "After a delay" stops the first attempt whose sleep would reach the limit: with a constant delay `d` and
      attempts that take no time, attempt `n` when `n * d` is the first multiple of it that is not below. */
  lemma TimeStrategyAllows(cfg: Config, p: Policy, outcomes: nat -> Outcome, startedAt: nat, book: Book, k: nat,
          limit: nat, d: nat, n: nat)
    requires ValidConfig(cfg) && p.budgetKey == None && p.stop == AfterDelay(limit)
    requires forall i: nat :: CanFail(outcomes(i))
    requires 0 < d <= MAX_SLEEP && 1 <= n && (n - 1) * d < limit <= n * d
    ensures var (s, progress) :=
                RunTurns(cfg, p, Start(startedAt, book), Ideal(_ => Seconds(d), outcomes, 1, startedAt, k));
            && s.runtime.attemptNumber == Least(n, k)
            && if k >= n then progress.Decided? && progress.kind == Exhaust else progress.Running?
  {
    hide RunTurns, Simulated, CanFail, Ideal;
    var delays: nat -> Backoff := _ => Seconds(d);
    SimulationIsFaithful(cfg, p, delays, outcomes, startedAt, book, k);
    TimelineUnderTimeLimit(limit, d, n, 1, 0, k);
  }

  /** Delays that run user callbacks are never simulated: unless the first attempt stops at once, the
      simulation is refused. */
  lemma CallbacksAreRefused(stop: Stop, delays: nat -> Backoff, k: nat)
    requires k > 0
    ensures Simulated(stop, Safe(delays, true), 1, 0, k)
         == if ShouldStop(stop, 1, 0) then Steps([Step(1, 0, true, 0)]) else Refused(InvalidConfig)
  {
  }
}
