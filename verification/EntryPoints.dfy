/** The three ways to run a policy - called directly, as a decorated function, as a retry block -
and what each tells its caller. */
module EntryPoints {
  import opened Options
  import opened BudgetState
  import opened FlowState
  import opened FlowResults
  import Runs

  // ---------------------------------------------------------------- decorated functions

  /** Policies that differ only in how they end plan every turn alike. */
  predicate SameFlow(p: Policy, q: Policy) {
    p.stop == q.stop && p.budgetKey == q.budgetKey && p.historyLimit == q.historyLimit
  }

  lemma SamePlanRetry(cfg: Config, p: Policy, q: Policy, s: State, t: Turn, value: Value, error: Option<Error>,
          cause: Cause)
    requires ValidConfig(cfg) && SameFlow(p, q)
    ensures PlanRetry(cfg, p, s, t, value, error, cause) == PlanRetry(cfg, q, s, t, value, error, cause)
  {
    hide ReserveStep, ReleaseStep, ResultOf;
  }

  lemma SameAttempt(cfg: Config, p: Policy, q: Policy, s: State, t: Turn)
    requires ValidConfig(cfg) && SameFlow(p, q)
    ensures Attempt(cfg, p, s, t) == Attempt(cfg, q, s, t)
  {
    hide PlanRetry, ResultOf, Recorded;
    forall x: State, value, error, cause
      ensures PlanRetry(cfg, p, x, t, value, error, cause) == PlanRetry(cfg, q, x, t, value, error, cause)
    {
      SamePlanRetry(cfg, p, q, x, t, value, error, cause);
    }
  }

  /** How a policy ends has no say in how it runs. */
  lemma {:induction false} SameRun(cfg: Config, p: Policy, q: Policy, s: State, turns: seq<Turn>)
    requires ValidConfig(cfg) && SameFlow(p, q)
    ensures RunTurns(cfg, p, s, turns) == RunTurns(cfg, q, s, turns)
    decreases |turns|
  {
    hide Attempt;
    if turns != [] {
      SameAttempt(cfg, p, q, s, turns[0]);
      var (s1, progress) := TakeTurn(cfg, p, s, turns[0]);
      SameRun(cfg, p, q, s1, turns[1..]);
    }
  }

  /** How a direct run ends for its caller, once it has ended. */
  function EndingOf(p: Policy, progress: Progress): Ending
    requires !progress.Running?
  {
    match progress
    case Decided(kind, result) => Finish(p, kind, result)
    case Failed(e) => Throws(e)
  }

  /** What a decorated function does with the ending of its tracked run: an error goes through, a
      result is resolved by the caller's policy. */
  function Resolved(p: Policy, tracked: Ending): Ending {
    if tracked.GivesResult? then ResolveTracked(p, tracked.result) else tracked
  }

  /** A decision and its result say the same about how the run ended. */
  predicate KindFits(kind: FinalKind, result: RetryResult) {
    match kind
    case Accept => !result.exhausted && result.error == None
    case Reject => !result.exhausted && result.error.Some?
    case Exhaust => result.exhausted
  }

  lemma DecisionsFit(cfg: Config, p: Policy, startedAt: nat, book: Book, turns: seq<Turn>)
    requires ValidConfig(cfg)
    ensures var progress := RunTurns(cfg, p, Start(startedAt, book), turns).1;
            progress.Decided? ==> KindFits(progress.kind, progress.result)
  {
    hide RunTurns, Records, Failures, ResolveFinalError;
    ResultTellsTheRun(cfg, p, startedAt, book, turns);
  }

  lemma DecisionCountsAttempts(cfg: Config, p: Policy, startedAt: nat, book: Book, turns: seq<Turn>)
    requires ValidConfig(cfg)
    ensures var (s, progress) := RunTurns(cfg, p, Start(startedAt, book), turns);
            progress.Decided? ==>
              progress.result.total == s.runtime.attemptNumber > 0 && progress.result.startedAt == startedAt
  {
    hide RunTurns, OutcomeOf, Records, Failures;
    ResultTellsTheRun(cfg, p, startedAt, book, turns);
  }

  /** A decorated function is its policy called directly: the tracked run is the direct run, step by
      step, and resolving its result gives the direct ending, for every policy and every script. */
  lemma DecoratedIsDirect(cfg: Config, p: Policy, startedAt: nat, book: Book, turns: seq<Turn>)
    requires ValidConfig(cfg)
    ensures var s0 := Start(startedAt, book);
            var (direct, tracked) := (RunTurns(cfg, p, s0, turns), RunTurns(cfg, ReturnResult(p), s0, turns));
            direct == tracked
            && (!direct.1.Running? ==>
                  && (direct.1.Decided? ==> EndingOf(ReturnResult(p), tracked.1) == GivesResult(direct.1.result))
                  && Resolved(p, EndingOf(ReturnResult(p), tracked.1)) == EndingOf(p, direct.1))
  {
    hide RunTurns;
    SameRun(cfg, p, ReturnResult(p), Start(startedAt, book), turns);
    DecisionsFit(cfg, p, startedAt, book, turns);
  }

  // ---------------------------------------------------------------- retry blocks

  /** How a block leaves its caller: the result it stores, the outcome it stores when exhausted, and
      the error that leaves its `with` statement. */
  datatype BlockEnd = BlockEnd(result: Option<RetryResult>, outcome: Option<Ending>, leaves: Option<Error>)

  /** The end of a block after a final decision about an attempt whose body raised `current` or nothing. */
  function BlockFinish(p: Policy, kind: FinalKind, result: RetryResult, current: Option<Error>): BlockEnd {
    if kind != Exhaust then BlockEnd(Some(result), None, current)
    else
      match FinishExhausted(p, result)
      case Throws(e) => BlockEnd(Some(result), None, Some(e))
      case outcome => BlockEnd(Some(result), Some(outcome), None)
  }

  /** What the end of a block amounts to: the error that left it, else its outcome, else its result,
      read as the policy would give it. */
  function Read(p: Policy, end: BlockEnd): Ending
    requires end.leaves.None? && end.outcome.None? ==> end.result.Some?
  {
    if end.leaves.Some? then Throws(end.leaves.value)
    else if end.outcome.Some? then end.outcome.value
    else if p.shouldReturnResult then GivesResult(end.result.value)
    else Gives(end.result.value.value)
  }

  /** What the body of an attempt raised. */
  function BodyError(t: Turn): Option<Error> {
    match t.outcome
    case Returned(_, _) => None
    case Threw(e) => Some(e)
    case Aborted(e) => Some(e)
  }

  /** A block over the same script takes the same decisions with the same events, and ends as the
      direct run does - except in one case: a rejected error always leaves the block, even under a
      policy that returns results, where the direct run returns the result. */
  lemma BlockMatchesDirect(cfg: Config, p: Policy, startedAt: nat, book: Book, turns: seq<Turn>)
    requires ValidConfig(cfg)
    ensures var (s, progress) := RunTurns(cfg, p, Start(startedAt, book), turns);
            progress.Decided? ==>
              && 0 < s.runtime.attemptNumber <= |turns|
              && var end := BlockFinish(p, progress.kind, progress.result,
                  BodyError(turns[s.runtime.attemptNumber - 1]));
                 && end.result == Some(progress.result)
                 && (end.outcome.Some? <==> progress.kind == Exhaust && !EndingOf(p, progress).Throws?)
                 && (end.leaves.Some? <==> progress.kind == Reject || EndingOf(p, progress).Throws?)
                 && (Read(p, end) == EndingOf(p, progress) <==> !(progress.kind == Reject && p.shouldReturnResult))
                 && (progress.kind == Exhaust ==> Read(p, end) == FinishExhausted(p, progress.result))
  {
    hide RunTurns, Records, Failures, ResolveFinalError;
    ResultTellsTheRun(cfg, p, startedAt, book, turns);
    DecisionsFit(cfg, p, startedAt, book, turns);
  }

  /** Read by its caller, the block over a script that comes to a decision ends as the direct run. */
  ghost predicate ReadsLikeDirect(cfg: Config, p: Policy, startedAt: nat, book: Book, turns: seq<Turn>)
    requires ValidConfig(cfg)
  {
    var (s, progress) := RunTurns(cfg, p, Start(startedAt, book), turns);
    progress.Decided? ==>
      && 0 < s.runtime.attemptNumber <= |turns|
      && Read(p, BlockFinish(p, progress.kind, progress.result, BodyError(turns[s.runtime.attemptNumber - 1])))
          == EndingOf(p, progress)
  }

  /** An attempt whose body raises an error that the condition does not want to be retried. */
  const REJECTED := Turn(Fine, 0, Threw(Raised(0, true, false, None, None, false)), Declines, 0, Fine, Seconds(0), 0,
                         0, Fine, 0, 0, 0, Fine, Fine)

  /** A rejected error under a policy that returns results: the block raises, the direct call returns. */
  lemma RejectedErrorLeaves(cfg: Config, p: Policy, startedAt: nat, book: Book)
    requires ValidConfig(cfg) && p.shouldReturnResult
    ensures !ReadsLikeDirect(cfg, p, startedAt, book, [REJECTED])
  {
    hide PlanRetry;
  }

  /** Blocks and direct calls end alike over all scripts exactly under the policies that do not return
      results. */
  lemma BlocksReadLikeDirectIff(cfg: Config, p: Policy)
    requires ValidConfig(cfg)
    ensures !p.shouldReturnResult <==> forall startedAt, book, turns :: ReadsLikeDirect(cfg, p, startedAt, book, turns)
  {
    hide RunTurns, BlockFinish, Read, EndingOf;
    if p.shouldReturnResult {
      RejectedErrorLeaves(cfg, p, 0, EMPTY_BOOK);
    } else {
      forall startedAt, book, turns ensures ReadsLikeDirect(cfg, p, startedAt, book, turns) {
        BlockMatchesDirect(cfg, p, startedAt, book, turns);
      }
    }
  }

  // ---------------------------------------------------------------- final behaviours

  /** The builder calls that choose what an exhausted run does. */
  datatype Choice =
    | RaiseLast
    | ReturnTheResult
    | Fallback(callback: RetryResult -> Ending)
    | RaiseOther(factory: RetryResult -> Made)

  /** Each of them replaces all four settings. */
  function Choose(p: Policy, c: Choice): Policy {
    var none := p.(shouldReturnResult := false, fallback := None, factory := None, shouldRaiseLast := false);
    match c
    case RaiseLast => none.(shouldRaiseLast := true)
    case ReturnTheResult => ReturnResult(p)
    case Fallback(callback) => none.(fallback := Some(callback))
    case RaiseOther(factory) => none.(factory := Some(factory))
  }

  function ChooseAll(p: Policy, cs: seq<Choice>): Policy {
    if cs == [] then p else Choose(ChooseAll(p, cs[..|cs| - 1]), cs[|cs| - 1])
  }

  /** What a chosen behaviour promises for an exhausted run. Raising the last error is a promise about
      runs that ended with one; other runs end as the policy treats rejected values. */
  predicate Promised(c: Choice, raiseOnResult: bool, result: RetryResult, ending: Ending) {
    match c
    case RaiseLast => (
      && (result.error.Some? ==> ending == Throws(result.error.value))
      && (result.error.None? && result.cause == Some(ByResult) && raiseOnResult ==> ending == Throws(RetryExhausted))
      && (result.error.None? && !raiseOnResult ==> ending == Gives(result.value)))
    case ReturnTheResult => ending == GivesResult(result)
    case Fallback(callback) => ending == callback(result)
    case RaiseOther(factory) => ending.Throws? && (factory(result).NotAnException? ==> ending.error == InvalidConfig)
                                && (factory(result).Exception? ==> ending.error == factory(result).error)
                                && (factory(result).Breaks? ==> ending.error == factory(result).error)
  }

  lemma {:induction false} ChoicesLeaveTheRest(p: Policy, cs: seq<Choice>)
    ensures SameFlow(p, ChooseAll(p, cs)) && ChooseAll(p, cs).raiseOnResult == p.raiseOnResult
  {
    if cs != [] {
      ChoicesLeaveTheRest(p, cs[..|cs| - 1]);
    }
  }

  /** The last configuration wins: after any chain of builder calls an exhausted run ends as the last
      of them promises, whatever was configured before, and runs as if none had been made. */
  lemma LastConfigurationWins(p: Policy, cs: seq<Choice>, last: Choice, result: RetryResult)
    requires result.exhausted
    ensures var chosen := ChooseAll(p, cs + [last]);
            SameFlow(p, chosen) && Promised(last, p.raiseOnResult, result, FinishExhausted(chosen, result))
  {
    assert (cs + [last])[..|cs|] == cs;
    ChoicesLeaveTheRest(p, cs);
  }

  /** An Exception that is not itself a retry signal. */
  predicate Stands(e: Option<Error>) {
    match e
    case None => false
    case Some(Raised(_, ordinary, tryAgain, _, _, _)) => ordinary && !tryAgain
    case Some(_) => true
  }

  /** What a raised error is reported as: itself, unless it is a retry signal; then its explicit cause, or
      else the error it was raised in the handling of, if one of these can stand for it. */
  predicate IsReportedAs(raised: Error, final: Error) {
    if !IsTryAgain(raised) then final == raised
    else
      && (Stands(raised.cause) ==> final == raised.cause.value)
      && (!Stands(raised.cause) && Stands(raised.context) && !raised.suppressContext ==> final == raised.context.value)
      && (!Stands(raised.cause) && (raised.suppressContext || !Stands(raised.context)) ==> final == raised)
  }

  /** The final error of a retry signal is settled once: resolving it again changes nothing. */
  lemma FinalErrorIsSettled(e: Error)
    ensures IsReportedAs(e, ResolveFinalError(e)) && ResolveFinalError(ResolveFinalError(e)) == ResolveFinalError(e)
  {
    hide IsOperational;
    OperationalIsNoSignal(if IsTryAgain(e) then e.cause else None);
    OperationalIsNoSignal(if IsTryAgain(e) then e.context else None);
  }

  lemma OperationalIsNoSignal(e: Option<Error>)
    ensures IsOperational(e) <==> Stands(e)
    ensures IsOperational(e) ==> !IsTryAgain(e.value)
  {
  }

  /** The error an exhausted run reports: what its last attempt raised is reported as, settled. */
  lemma ReportedErrorIsSettled(cfg: Config, p: Policy, startedAt: nat, book: Book, turns: seq<Turn>)
    requires ValidConfig(cfg)
    ensures var (s, progress) := RunTurns(cfg, p, Start(startedAt, book), turns);
            progress.Decided? && progress.kind == Exhaust && progress.result.error.Some? ==>
              && 0 < s.runtime.attemptNumber <= |turns| && turns[s.runtime.attemptNumber - 1].outcome.Threw?
              && IsReportedAs(turns[s.runtime.attemptNumber - 1].outcome.error, progress.result.error.value)
              && ResolveFinalError(progress.result.error.value) == progress.result.error.value
  {
    hide RunTurns, Records, Failures, ResolveFinalError, IsReportedAs;
    ResultTellsTheRun(cfg, p, startedAt, book, turns);
    var (s, progress) := RunTurns(cfg, p, Start(startedAt, book), turns);
    if progress.Decided? && progress.kind == Exhaust && progress.result.error.Some? {
      FinalErrorIsSettled(turns[s.runtime.attemptNumber - 1].outcome.error);
    }
  }

  // ---------------------------------------------------------------- what the caller gets

  /** What the caller of an exhausted run gets, from the settings of the policy in their order of precedence
      and from what the last attempt did. */
  predicate IsExhaustedEnding(p: Policy, result: RetryResult, t: Turn, ending: Ending) {
    if p.shouldReturnResult then ending == GivesResult(result)
    else if p.fallback.Some? then ending == p.fallback.value(result)
    else if p.factory.Some? then
      match p.factory.value(result)
      case Exception(made) => ending == Throws(made)
      case NotAnException => ending == Throws(InvalidConfig)
      case Breaks(error) => ending == Throws(error)
    else
      match t.outcome
      case Threw(e) => (
        if p.shouldRaiseLast then ending.Throws? && IsReportedAs(e, ending.error) else ending == Gives(Nothing))
      case Returned(value, _) => ending == if p.raiseOnResult then Throws(RetryExhausted) else Gives(value)
      case Aborted(_) => false
  }

  /** What the caller of a direct run gets. */
  predicate IsEnding(p: Policy, progress: Progress, t: Turn, ending: Ending) {
    match progress
    case Running => false
    case Failed(e) => ending == Throws(e)
    case Decided(kind, result) =>
      match kind
      case Accept => (
        && t.outcome.Returned?
        && ending == if p.shouldReturnResult then GivesResult(result) else Gives(t.outcome.value))
      case Reject => (
        && t.outcome.Threw?
        && ending == if p.shouldReturnResult then GivesResult(result) else Throws(t.outcome.error))
      case Exhaust => IsExhaustedEnding(p, result, t, ending)
  }

  /** The ending of a direct run, read off the policy and the last attempt. */
  lemma CallersGetTheirEnding(cfg: Config, p: Policy, startedAt: nat, book: Book, turns: seq<Turn>)
    requires ValidConfig(cfg)
    ensures var (s, progress) := RunTurns(cfg, p, Start(startedAt, book), turns);
            !progress.Running? ==>
              && 0 < s.runtime.attemptNumber <= |turns|
              && IsEnding(p, progress, turns[s.runtime.attemptNumber - 1], EndingOf(p, progress))
  {
    hide RunTurns, TakeTurn, Records, Failures, RecordOf, OutcomeOf, IsEnding, EndingOf;
    ResultTellsTheRun(cfg, p, startedAt, book, turns);
    Runs.LastTurnCloses(cfg, p, Start(startedAt, book), turns);
    var (s, progress) := RunTurns(cfg, p, Start(startedAt, book), turns);
    if !progress.Running? {
      EndingOfTurn(p, progress, turns[s.runtime.attemptNumber - 1]);
    }
  }

  lemma EndingOfTurn(p: Policy, progress: Progress, t: Turn)
    requires !progress.Running?
    requires progress.Decided? ==>
               OutcomeOf(progress.result, t, progress.kind) && (progress.kind == Exhaust <==> progress.result.exhausted)
    ensures IsEnding(p, progress, t, EndingOf(p, progress))
  {
    hide ResolveFinalError, IsReportedAs;
    if t.outcome.Threw? {
      FinalErrorIsSettled(t.outcome.error);
    }
  }
}
