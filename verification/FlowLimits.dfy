/** What the stop strategy guarantees about whole runs: sleeps that end before the deadline, and
a bounded number of attempts. */
module FlowLimits {
  import opened Options
  import opened Stops
  import opened BudgetState
  import opened FlowState
  import opened FlowLaws

  // ---------------------------------------------------------------- sleeps

  /** Sleep number `attempt`, seen from the start of the execution, ends before the strategy stops. */
  predicate EndsInTime(stop: Stop, startedAt: nat, attempt: nat, sleep: Sleep) {
    !ShouldStop(stop, attempt, sleep.from - startedAt + sleep.ticks)
  }

  /** Every sleep so far was checked against the strategy, with the clock read after its handlers. */
  predicate SleepsInTime(p: Policy, s: State) {
    forall i :: 0 <= i < |s.trace.sleeps| ==> EndsInTime(p.stop, s.runtime.startedAt, i + 1, s.trace.sleeps[i])
  }

  lemma PlannedWaitIsInTime(cfg: Config, p: Policy, s: State, t: Turn, value: Value, error: Option<Error>, cause: Cause)
    requires ValidConfig(cfg)
    ensures var (s', d) := PlanRetry(cfg, p, s, t, value, error, cause);
            d.Wait? ==>
              EndsInTime(p.stop, s.runtime.startedAt, s.runtime.attemptNumber, Sleep(t.recheckedAt, d.plan.totalDelay))
  {
    hide ShouldStop, ResultOf, PlanRetryWait, Released;
    PlanningIsQuiet(cfg, p, s, t);
  }

  lemma WaitIsInTime(cfg: Config, p: Policy, s: State, t: Turn)
    requires ValidConfig(cfg)
    ensures var (s', d) := Attempt(cfg, p, s, t);
            d.Wait? ==>
              EndsInTime(p.stop, s.runtime.startedAt, s.runtime.attemptNumber + 1,
                  Sleep(t.recheckedAt, d.plan.totalDelay))
  {
    hide EndsInTime, PlanRetry, StopsAt, ResultOf, Bounded;
    forall x: State, value, error, cause
      | x.runtime.startedAt == s.runtime.startedAt && x.runtime.attemptNumber == s.runtime.attemptNumber + 1
      ensures var d := PlanRetry(cfg, p, x, t, value, error, cause).1;
              d.Wait? ==>
                EndsInTime(p.stop, s.runtime.startedAt, s.runtime.attemptNumber + 1,
                    Sleep(t.recheckedAt, d.plan.totalDelay))
    {
      PlannedWaitIsInTime(cfg, p, x, t, value, error, cause);
    }
  }

  /** What a turn adds to the sleeps. */
  lemma TurnSleeps(cfg: Config, p: Policy, s: State, t: Turn)
    requires ValidConfig(cfg)
    ensures var (s', progress) := TakeTurn(cfg, p, s, t);
            if progress.Running? then
              exists ticks: nat :: s'.trace.sleeps == s.trace.sleeps + [Sleep(t.recheckedAt, ticks)]
                && EndsInTime(p.stop, s.runtime.startedAt, s.runtime.attemptNumber + 1, Sleep(t.recheckedAt, ticks))
            else s'.trace.sleeps == s.trace.sleeps
  {
    hide Attempt, EndsInTime;
    AttemptCounts(cfg, p, s, t);
    WaitIsInTime(cfg, p, s, t);
    var (s1, d) := Attempt(cfg, p, s, t);
    if d.Wait? {
      ReleaseIsQuiet(cfg, s1, d.plan, t.releasedAt);
    }
  }

  /** The sleeps of a run begin where its turns read the clock last, and number the attempts. */
  ghost predicate SleepsFollow(s: State, s': State, turns: seq<Turn>) {
    && s.trace.sleeps <= s'.trace.sleeps && |s'.trace.sleeps| <= |s.trace.sleeps| + |turns|
    && (forall i :: 0 <= i < |s'.trace.sleeps| - |s.trace.sleeps| ==>
          s'.trace.sleeps[|s.trace.sleeps| + i].from == turns[i].recheckedAt)
  }

  lemma {:induction false} RunSleepsInTime(cfg: Config, p: Policy, s: State, turns: seq<Turn>)
    requires ValidConfig(cfg) && SleepsInTime(p, s) && |s.trace.sleeps| == s.runtime.attemptNumber
    ensures var (s', progress) := RunTurns(cfg, p, s, turns);
            && SleepsInTime(p, s') && SleepsFollow(s, s', turns)
            && s'.runtime.attemptNumber == |s'.trace.sleeps| + (if progress.Running? then 0 else 1)
            && s'.runtime.startedAt == s.runtime.startedAt
    decreases |turns|
  {
    hide TakeTurn, EndsInTime;
    if turns != [] {
      TurnSleeps(cfg, p, s, turns[0]);
      TurnCounts(cfg, p, s, turns[0]);
      var (s1, progress) := TakeTurn(cfg, p, s, turns[0]);
      if progress.Running? {
        RunSleepsInTime(cfg, p, s1, turns[1..]);
        SleepsFollowOn(s, s1, RunTurns(cfg, p, s, turns).0, turns);
      }
    }
  }

  lemma SleepsFollowOn(s: State, s1: State, s': State, turns: seq<Turn>)
    requires turns != [] && SleepsFollow(s1, s', turns[1..])
    requires |s1.trace.sleeps| == |s.trace.sleeps| + 1 && s.trace.sleeps <= s1.trace.sleeps
    requires s1.trace.sleeps[|s.trace.sleeps|].from == turns[0].recheckedAt
    ensures SleepsFollow(s, s', turns)
  {
    var k := |s.trace.sleeps|;
    forall i | 0 <= i < |s'.trace.sleeps| - k ensures s'.trace.sleeps[k + i].from == turns[i].recheckedAt {
      if i > 0 {
        assert s'.trace.sleeps[k + 1 + (i - 1)].from == turns[1..][i - 1].recheckedAt;
      }
    }
  }

  // ---------------------------------------------------------------- the deadline

  lemma InTimeBeforeDeadline(stop: Stop, startedAt: nat, attempt: nat, sleep: Sleep)
    requires WellFormed(stop) && TimeLimit(stop).Known? && EndsInTime(stop, startedAt, attempt, sleep)
    ensures sleep.from + sleep.ticks < startedAt + TimeLimit(stop).n
  {
    var e := sleep.from - startedAt + sleep.ticks;
    if e >= TimeLimit(stop).n {
      TimeLimitIsExact(stop, e);
      StopIsMonotone(stop, 0, e, attempt, e);
    }
  }

  /** Deadline safety: under a strategy with a deadline, every sleep of a run ends before it, by the
      clock read after the before_sleep handlers; so an attempt that begins when the sleep before it
      has run its time begins before the deadline. */
  lemma DeadlineIsKept(cfg: Config, p: Policy, startedAt: nat, book: Book, turns: seq<Turn>, i: nat)
    requires ValidConfig(cfg) && ValidPolicy(p) && TimeLimit(p.stop).Known?
    requires i < |RunTurns(cfg, p, Start(startedAt, book), turns).0.trace.sleeps|
    ensures var sleep := RunTurns(cfg, p, Start(startedAt, book), turns).0.trace.sleeps[i];
            var deadline := startedAt + TimeLimit(p.stop).n;
            && i < |turns| && sleep.from == turns[i].recheckedAt
            && sleep.from + sleep.ticks < deadline
            && (i + 1 < |turns| && turns[i + 1].beganAt <= sleep.from + sleep.ticks ==> turns[i + 1].beganAt < deadline)
  {
    hide RunTurns, EndsInTime, TimeLimit;
    var s0 := Start(startedAt, book);
    RunSleepsInTime(cfg, p, s0, turns);
    var s := RunTurns(cfg, p, s0, turns).0;
    assert s.trace.sleeps[|s0.trace.sleeps| + i].from == turns[i].recheckedAt;
    InTimeBeforeDeadline(p.stop, startedAt, i + 1, s.trace.sleeps[i]);
  }

  // ---------------------------------------------------------------- the number of attempts

  lemma LimitIsPositive(s: Stop)
    requires WellFormed(s) && AttemptLimit(s).Known?
    ensures AttemptLimit(s).n >= 1
  {
    if AttemptLimit(s).n == 0 {
      NoStopBeforeFirst(s);
      StopsFromLimit(s, 0, -1);
    }
  }

  /** Before the first attempt and before time begins, nothing stops. */
  lemma {:induction false} NoStopBeforeFirst(s: Stop)
    requires WellFormed(s)
    ensures !ShouldStop(s, 0, -1)
  {
    match s
    case Any(ss) =>
      forall i | 0 <= i < |ss| ensures !ShouldStop(ss[i], 0, -1) {
        NoStopBeforeFirst(ss[i]);
      }
    case All(ss) =>
      NoStopBeforeFirst(ss[0]);
    case _ =>
  }

  /** No run makes more attempts than the known limit of its strategy. */
  lemma AttemptsAreBounded(cfg: Config, p: Policy, startedAt: nat, book: Book, turns: seq<Turn>)
    requires ValidConfig(cfg) && ValidPolicy(p) && AttemptLimit(p.stop).Known?
    ensures RunTurns(cfg, p, Start(startedAt, book), turns).0.runtime.attemptNumber <= AttemptLimit(p.stop).n
  {
    hide RunTurns, AttemptLimit;
    var s0 := Start(startedAt, book);
    RunSleepsInTime(cfg, p, s0, turns);
    LimitIsPositive(p.stop);
    var s := RunTurns(cfg, p, s0, turns).0;
    var k := |s.trace.sleeps|;
    if k >= AttemptLimit(p.stop).n {
      var last := s.trace.sleeps[k - 1];
      assert EndsInTime(p.stop, startedAt, k, last);
      StopsFromLimit(p.stop, k, last.from - startedAt + last.ticks);
    }
  }

  /** One execution of the policy: where it starts, the budget it finds, and what it meets. */
  datatype Launch = Launch(startedAt: nat, book: Book, turns: seq<Turn>)

  ghost function TotalCalls(cfg: Config, p: Policy, launches: seq<Launch>): nat
    requires ValidConfig(cfg)
  {
    if launches == [] then 0
    else
      RunTurns(cfg, p, Start(launches[0].startedAt, launches[0].book), launches[0].turns).0.runtime.attemptNumber
      + TotalCalls(cfg, p, launches[1..])
  }

  lemma {:induction false} CallsAreBounded(cfg: Config, p: Policy, launches: seq<Launch>, n: nat)
    requires ValidConfig(cfg) && ValidPolicy(p) && AttemptLimit(p.stop) == Known(n)
    ensures TotalCalls(cfg, p, launches) <= |launches| * n
  {
    hide RunTurns, AttemptLimit;
    if launches != [] {
      AttemptsAreBounded(cfg, p, launches[0].startedAt, launches[0].book, launches[0].turns);
      CallsAreBounded(cfg, p, launches[1..], n);
      assert |launches| * n == n + |launches[1..]| * n;
    }
  }

  /** The load estimate is an upper bound: executions of one policy, however they go, make together
      at most the estimated number of calls. */
  lemma LoadEstimateIsABound(cfg: Config, p: Policy, launches: seq<Launch>)
    requires ValidConfig(cfg) && ValidPolicy(p) && launches != []
    ensures var maximum := MaximumTotalCalls(p.stop, |launches|);
            maximum.Known? ==> TotalCalls(cfg, p, launches) <= maximum.n
  {
    hide RunTurns, AttemptLimit, EstimateAttempts, TotalCalls;
    EstimateAgrees(p.stop);
    if AttemptLimit(p.stop).Known? {
      var n, k := AttemptLimit(p.stop).n, |launches|;
      LimitIsPositive(p.stop);
      CallsAreBounded(cfg, p, launches, n);
      assert k * n == k + k * (n - 1);
    }
  }
}
