/** Retry blocks: the iterator that yields attempts and the context around each of them. */
module Blocks {
  import opened Options
  import opened BudgetState
  import opened FlowState
  import opened FlowLaws
  import opened Flow
  import opened EntryPoints
  import opened Executors
  import Budget

  predicate IsException(e: Error) {
    e.Raised? ==> e.ordinary
  }

  /** The turns of a block: a body that ends by itself may have set a result or not, and what it
      raises is an Exception or ends the block at once. */
  predicate IsBlockTurn(t: Turn) {
    match t.outcome
    case Returned(value, hasValue) => hasValue || value == Nothing
    case Threw(e) => IsException(e)
    case Aborted(e) => !IsException(e)
  }

  /** The end of a `with` statement: the pending error is suppressed or not, or another is raised. */
  datatype Exit = Suppresses(yes: bool) | Raises(error: Error)

  class RetryBlockIterator {
    const policy: Policy
    const flow: RetryFlow
    var finished: bool
    var result: Option<RetryResult>
    var outcome: Option<Ending>
    var hasOutcome: bool

    ghost predicate Valid()
      reads this, flow, flow.runtime, flow.budget
    {
      && flow.Valid() && flow.policy == policy
      && (hasOutcome <==> outcome.Some?)
      && (!finished ==> result.None? && outcome.None?)
    }

    constructor (policy: Policy, budget: Budget.RetryBudget?, startedAt: nat)
      requires Usable(policy, budget)
      ensures Valid() && !finished && this.policy == policy && flow.budget == budget && fresh(flow)
          && fresh(flow.runtime)
      ensures flow.Contents() == Start(startedAt, BookOf(budget))
    {
      this.policy := policy;
      flow := new RetryFlow(policy, budget, startedAt);
      finished, result, outcome, hasOutcome := false, None, None, false;
    }

    /** The next attempt, or nothing once the block has finished. */
    method Next() returns (context: RetryAttemptContext?)
      requires Valid()
      modifies flow.runtime
      ensures Valid() && (context == null <==> finished)
      ensures context != null ==>
          fresh(context) && context.block == this && !context.hasResult && context.resultValue == Nothing
      ensures var s := old(flow.Contents());
              flow.Contents() == if finished then s
                  else s.(runtime := s.runtime.(attemptNumber := s.runtime.attemptNumber + 1))
    {
      if finished {
        return null;
      }
      var _ := flow.NextAttempt();
      context := new RetryAttemptContext(this);
    }

    /** Stores a final decision. When the policy's ending raises, that error leaves the block - as
        the pending error itself, if it is that one. */
    method Finish(kind: FinalKind, final: RetryResult, current: Option<Error>) returns (exit: Exit)
      requires Valid() && !finished
      modifies this
      ensures Valid() && finished && Contents(current, exit) == BlockFinish(policy, kind, final, current)
    {
      hide FinishExhausted;
      finished := true;
      result := Some(final);
      if kind != Exhaust {
        return Suppresses(false);
      }
      var ending := FinishExhausted(policy, final);
      if ending.Throws? {
        if current == Some(ending.error) {
          return Suppresses(false);
        }
        return Raises(ending.error);
      }
      outcome := Some(ending);
      hasOutcome := true;
      return Suppresses(current.Some?);
    }

    /** What the block tells its caller after a `with` statement with a pending error or none. */
    function Contents(current: Option<Error>, exit: Exit): BlockEnd
      reads this
    {
      BlockEnd(result, outcome, Leaves(current, exit))
    }
  }

  /** The error that leaves a `with` statement. */
  function Leaves(current: Option<Error>, exit: Exit): Option<Error> {
    match exit
    case Raises(e) => Some(e)
    case Suppresses(yes) => if yes then None else current
  }

  class RetryAttemptContext {
    const block: RetryBlockIterator
    var attemptStartedAt: nat
    var hasResult: bool
    var resultValue: Value

    constructor (block: RetryBlockIterator)
      ensures this.block == block && attemptStartedAt == 0 && !hasResult && resultValue == Nothing
    {
      this.block := block;
      attemptStartedAt, hasResult, resultValue := 0, false, Nothing;
    }

    method SetResult(value: Value) returns (r: Value)
      modifies this
      ensures hasResult && resultValue == value && r == value && attemptStartedAt == old(attemptStartedAt)
    {
      hasResult := true;
      resultValue := value;
      return value;
    }

    method Enter(t: Turn) returns (error: Option<Error>)
      requires block.Valid()
      modifies this`attemptStartedAt, block.flow
      ensures block.Valid()
      ensures error == if t.beforeAttempt.Fails? then Some(t.beforeAttempt.error) else None
      ensures error.None? ==> attemptStartedAt == t.beganAt
      ensures var s := Emit(old(block.flow.Contents()), BeforeAttempt);
              block.flow.Contents() == if error.Some? then s else s.(attemptStartedAt := t.beganAt)
    {
      error := block.flow.EnterAttempt(t);
      if error.None? {
        attemptStartedAt := block.flow.attemptStartedAt;
      }
    }

    /** The decision about this attempt; none for an error that is not an Exception. */
    method Decide(t: Turn, error: Option<Error>) returns (d: Option<Decision>)
      requires block.Valid()
      modifies block.flow, block.flow.runtime, block.flow.budget
      ensures block.Valid()
      ensures var before := old(block.flow.Contents());
              var (s, decision) :=
                  BlockDecision(block.flow.Cfg(), block.policy, before, t, error, resultValue, hasResult);
              block.flow.Contents() == s && if d.Some? then d.value == decision
                  else error.Some? && decision == Propagate(error.value)
      ensures d.Some? && d.value.Wait? && d.value.plan.reservation.Some? ==> block.flow.budget != null
    {
      hide AfterException, AfterValue, ValidPolicy, ValidConfig;
      var decision: Decision;
      if error.Some? {
        if !IsException(error.value) {
          return None;
        }
        decision := block.flow.AfterException(t, error.value);
      } else {
        decision := block.flow.AfterValue(t, resultValue, hasResult);
      }
      return Some(decision);
    }

    /** The end of the `with` statement: decide, then sleep or finish. */
    method Exit(t: Turn, current: Option<Error>) returns (exit: Exit)
      requires block.Valid() && !block.finished
      modifies block, block.flow, block.flow.runtime, block.flow.budget
      ensures block.Valid()
      ensures var flow := block.flow;
              var before := old(flow.Contents());
              var (s, d) := BlockDecision(flow.Cfg(), block.policy, before, t, current, resultValue, hasResult);
              Exited(block, flow.Cfg(), s, d, t, current, exit)
    {
      hide AfterException, AfterValue, Slept, BlockFinish, ValidPolicy, ValidConfig;
      var decision := Decide(t, current);
      if decision.None? {
        return Suppresses(false);
      }
      match decision.value {
        case Propagate(e) =>
          return Raises(e);
        case Wait(plan) =>
          var error := block.flow.SleepBeforeRetry(t, plan);
          return if error.Some? then Raises(error.value) else Suppresses(current.Some?);
        case Final(kind, result) =>
          exit := block.Finish(kind, result, current);
      }
    }
  }

  /** What a block decides about an attempt whose body raised `error`, or ended by itself with the
      result it set, if any. */
  ghost function BlockDecision(cfg: Config, p: Policy, s: State, t: Turn, error: Option<Error>, value: Value,
          hasValue: bool): (State, Decision)
    requires ValidConfig(cfg)
  {
    if error.None? then AfterValue(cfg, p, s, t, value, hasValue)
    else if !IsException(error.value) then (s, Propagate(error.value))
    else AfterException(cfg, p, s, t, error.value)
  }

  /** How a block stands after the decision `d` in state `s`. */
  ghost predicate Exited(block: RetryBlockIterator, cfg: Config, s: State, d: Decision, t: Turn,
          current: Option<Error>, exit: Exit)
    reads block, block.flow, block.flow.runtime, block.flow.budget
  {
    match d
    case Propagate(e) => block.flow.Contents() == s && !block.finished && Leaves(current, exit) == Some(e)
    case Wait(plan) => (
      && block.flow.Contents() == Slept(cfg, s, t, plan).0 && !block.finished
      && Leaves(current, exit) == Slept(cfg, s, t, plan).1)
    case Final(kind, result) => (
      && block.flow.Contents() == s && block.finished
      && block.Contents(current, exit) == BlockFinish(block.policy, kind, result, current))
  }

  // ---------------------------------------------------------------- the block as its user writes it

  /** A block has finished as a decision says. */
  ghost predicate FinishedAs(block: RetryBlockIterator, kind: FinalKind, result: RetryResult, error: Option<Error>,
          leaves: Option<Error>)
    reads block
  {
    block.finished && BlockEnd(block.result, block.outcome, leaves) == BlockFinish(block.policy, kind, result, error)
  }

  /** How a block stands that has run like this. */
  ghost predicate RanAs(block: RetryBlockIterator, progress: Progress, last: Option<Error>, leaves: Option<Error>)
    reads block
  {
    match progress
    case Running => !block.finished && leaves == None
    case Failed(e) => !block.finished && leaves == Some(e)
    case Decided(kind, result) => FinishedAs(block, kind, result, last, leaves)
  }

  /** One `with` statement: enter, run the body, exit. `before` is the execution before this attempt. */
  method RunAttempt(context: RetryAttemptContext, t: Turn, ghost before: State) returns (leaves: Option<Error>)
    requires var block := context.block;
             && block.Valid() && !block.finished && IsBlockTurn(t) && !context.hasResult
                 && context.resultValue == Nothing
             && block.flow.Contents()
                == before.(runtime := before.runtime.(attemptNumber := before.runtime.attemptNumber + 1))
    modifies context, context.block, context.block.flow, context.block.flow.runtime, context.block.flow.budget
    ensures var block := context.block;
            var (s, progress) := TakeTurn(block.flow.Cfg(), block.policy, before, t);
            && block.Valid() && block.flow.Contents() == s && RanAs(block, progress, BodyError(t), leaves)
  {
    hide AfterException, AfterValue, Slept, BlockFinish, ValidPolicy, ValidConfig;
    leaves := context.Enter(t);
    if leaves.None? {
      if t.outcome.Returned? && t.outcome.hasValue {
        var _ := context.SetResult(t.outcome.value);
      }
      var exit := context.Exit(t, BodyError(t));
      leaves := Leaves(BodyError(t), exit);
    }
  }

  /** The loop over the attempts of a block: its state is that of the run, its errors and outcome are
      those the run's progress calls for. */
  method RunBlock(policy: Policy, budget: Budget.RetryBudget?, startedAt: nat, script: seq<Turn>)
    returns (block: RetryBlockIterator, leaves: Option<Error>)
    requires Usable(policy, budget) && forall i :: 0 <= i < |script| ==> IsBlockTurn(script[i])
    modifies budget
    ensures var (s, progress) := RunTurns(ConfigOf(budget), policy, Start(startedAt, old(BookOf(budget))), script);
            && block.policy == policy && block.flow.Contents() == s && s.book == BookOf(budget)
            && s.runtime.attemptNumber <= |script| && (!progress.Running? ==> s.runtime.attemptNumber > 0)
            && var current := if progress.Running? then None else BodyError(script[s.runtime.attemptNumber - 1]);
               RanAs(block, progress, current, leaves)
  {
    hide RunTurns, TakeTurn, BlockFinish, ValidPolicy, ValidConfig;
    block := new RetryBlockIterator(policy, budget, startedAt);
    leaves := None;
    ghost var cfg, s0, progress := ConfigOf(budget), block.flow.Contents(), Running;
    var i := 0;
    while i < |script| || block.finished
      invariant block.Valid() && block.policy == policy && block.flow.budget == budget
      invariant fresh(block) && fresh(block.flow) && fresh(block.flow.runtime)
      invariant i <= |script| && block.flow.runtime.attemptNumber == i && leaves == None
      invariant !block.finished ==>
          RunTurns(cfg, policy, s0, script) == RunTurns(cfg, policy, block.flow.Contents(), script[i..])
      invariant block.finished ==>
                  && i > 0 && progress.Decided?
                      && RunTurns(cfg, policy, s0, script) == (block.flow.Contents(), progress)
                  && RanAs(block, progress, BodyError(script[i - 1]), None)
      decreases |script| - i, if block.finished then 0 else 1
    {
      var context := block.Next();
      if context == null {
        return;
      }
      var t := script[i];
      assert script[i..][0] == t && script[i..][1..] == script[i + 1..];
      ghost var before := block.flow.Contents().(runtime := block.flow.runtime.Contents().(attemptNumber := i));
      RunUnfolds(cfg, policy, before, script[i..]);
      TurnCounts(cfg, policy, before, t);
      i := i + 1;
      leaves := RunAttempt(context, t, before);
      progress := TakeTurn(cfg, policy, before, t).1;
      if leaves.Some? {
        return;
      }
    }
    assert script[|script|..] == [];
    RunOfNothing(cfg, policy, block.flow.Contents());
  }
}
