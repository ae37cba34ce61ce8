/** What a run reports: its history and counters, its result, and which attempts asked for another. */
module FlowResults {
  import opened Options
  import opened BudgetState
  import opened FlowState
  import opened FlowLaws

  // ---------------------------------------------------------------- history and counters

  /** The record of a turn that was not cut off before it. */
  function RecordOf(t: Turn, number: nat): Record {
    match t.outcome
    case Returned(value, hasValue) => Record(number, t.beganAt, t.endedAt, value, hasValue, None)
    case Threw(e) => Record(number, t.beganAt, t.endedAt, Nothing, false, Some(e))
    case Aborted(e) => Record(number, t.beganAt, t.endedAt, Nothing, false, Some(e))
  }

  /** All records of a run whose first attempt has number `first`. */
  function Records(turns: seq<Turn>, first: nat): (records: seq<Record>)
    ensures |records| == |turns|
    ensures forall i :: 0 <= i < |turns| ==> records[i] == RecordOf(turns[i], first + i)
  {
    if turns == [] then [] else [RecordOf(turns[0], first)] + Records(turns[1..], first + 1)
  }

  function Failures(records: seq<Record>): (n: nat)
    ensures n <= |records|
  {
    if records == [] then 0
    else Failures(records[..|records| - 1]) + if records[|records| - 1].error.Some? then 1 else 0
  }

  /** How many of `n` records a history keeps: all of them, or as many as its limit admits. */
  function Kept(n: nat, limit: Option<nat>): (k: nat)
    ensures k <= n
  {
    if limit.Some? && limit.value < n then limit.value else n
  }

  /** A history has kept the last of `all` records. */
  predicate IsHistory(kept: seq<Record>, all: seq<Record>, limit: Option<nat>) {
    kept == all[|all| - Kept(|all|, limit)..]
  }

  /** The runtime has kept the last of `all` records, and counted every one. */
  predicate Books(rt: Runtime, all: seq<Record>, limit: Option<nat>) {
    IsHistory(rt.attempts, all, limit) && rt.failed == Failures(all) && rt.succeeded == |all| - Failures(all)
  }

  lemma {:induction false} HistoryGrows(kept: seq<Record>, all: seq<Record>, limit: Option<nat>, record: Record)
    requires IsHistory(kept, all, limit)
    ensures IsHistory(Bounded(kept + [record], limit), all + [record], limit)
  {
    var now := Bounded(kept + [record], limit);
    assert |now| == Kept(|all| + 1, limit);
    assert now == (all + [record])[|all| + 1 - |now|..];
  }

  lemma {:induction false} RecordingBooks(rt: Runtime, all: seq<Record>, limit: Option<nat>, record: Record)
    requires Books(rt, all, limit)
    ensures Books(Recorded(rt, limit, record), all + [record], limit)
  {
    hide IsHistory, Bounded;
    HistoryGrows(rt.attempts, all, limit, record);
    assert (all + [record])[..|all|] == all;
  }

  /** Value, error and cause of a result are those of the last attempt. */
  predicate OutcomeOf(result: RetryResult, t: Turn, kind: FinalKind) {
    match t.outcome
    case Aborted(_) => false
    case Returned(value, _) => (
      && kind != Reject && result.value == value && result.error == None
      && result.cause == if kind == Exhaust then Some(ByResult) else None)
    case Threw(e) => (
      && kind != Accept && result.value == Nothing
      && result.error == Some(if kind == Exhaust then ResolveFinalError(e) else e)
      && result.cause == if kind == Exhaust then Some(ByException) else None)
  }

  /** The result of a decision reports the runtime, and its outcome is that of the last attempt. */
  predicate Reports(result: RetryResult, rt: Runtime, t: Turn, kind: FinalKind) {
    && result.attempts == rt.attempts && result.startedAt == rt.startedAt && result.endedAt == t.sealedAt
    && result.total == rt.attemptNumber && result.failed == rt.failed && result.succeeded == rt.succeeded
    && (kind == Exhaust <==> result.exhausted)
    && OutcomeOf(result, t, kind)
  }

  lemma PlanRetryReports(cfg: Config, p: Policy, s: State, t: Turn, value: Value, error: Option<Error>, cause: Cause)
    requires ValidConfig(cfg)
    ensures var (s', d) := PlanRetry(cfg, p, s, t, value, error, cause);
            s'.runtime == s.runtime
            && (d.Final? ==>
                  && d.kind == Exhaust
                  && d.result == ResultOf(s.runtime, t.sealedAt, value, error, true, Some(cause)))
  {
    hide StopsAt, ResultOf, PlanRetryWait, Released;
    PlanningIsQuiet(cfg, p, s, t);
    var (s1, planning) := PlanRetryWait(cfg, p, s, t);
    if planning.Planned? {
      ReleaseIsQuiet(cfg, s1, planning.plan, t.releasedAt);
      ReleaseIsQuiet(cfg, Emit(s1, BeforeSleep), planning.plan, t.releasedAt);
    }
  }

  /** The attempt began and is recorded: a value in any case, an error once the condition, if it is asked
      about it, has answered. */
  predicate IsRecorded(t: Turn) {
    && t.beforeAttempt.Fine?
    && match t.outcome
       case Returned(_, _) => true
       case Threw(e) => IsTryAgain(e) || !t.verdict.Breaks?
       case Aborted(_) => false
  }

  /** One turn adds its record, unless an error from outside came before it was made. */
  ghost predicate TurnBooked(s: State, s': State, t: Turn, progress: Progress, all: seq<Record>, limit: Option<nat>) {
    && Books(s'.runtime, if IsRecorded(t) then all + [RecordOf(t, s.runtime.attemptNumber + 1)] else all, limit)
    && (!progress.Failed? ==> IsRecorded(t))
    && (progress.Decided? ==> Reports(progress.result, s'.runtime, t, progress.kind))
  }

  lemma TurnBooks(cfg: Config, p: Policy, s: State, t: Turn, all: seq<Record>)
    requires ValidConfig(cfg) && Books(s.runtime, all, p.historyLimit)
    ensures var (s', progress) := TakeTurn(cfg, p, s, t);
            TurnBooked(s, s', t, progress, all, p.historyLimit)
  {
    hide PlanRetry, Released, StopsAt, Bounded, Failures, ResolveFinalError;
    var n := s.runtime.attemptNumber + 1;
    var rt := s.runtime.(attemptNumber := n);
    var record := RecordOf(t, n);
    RecordingBooks(rt, all, p.historyLimit, record);
    var s2 := Emit(s.(runtime := rt), BeforeAttempt).(attemptStartedAt := t.beganAt);
    var s3 := s2.(runtime := Recorded(rt, p.historyLimit, record));
    if t.outcome.Returned? {
      PlanRetryReports(cfg, p, s3, t, t.outcome.value, None, ByResult);
    } else if t.outcome.Threw? {
      PlanRetryReports(cfg, p, Emit(s3, AfterFailure), t, Nothing, Some(t.outcome.error), ByException);
    }
    var (s4, d) := Attempt(cfg, p, s, t);
    if d.Wait? {
      ReleaseIsQuiet(cfg, s4, d.plan, t.releasedAt);
    }
  }

  /** Which records a run of `n` turns has: those of all of them, or of all but a last turn that an error
      from outside has cut off before it was recorded. */
  ghost predicate RunBooked(s: State, s': State, turns: seq<Turn>, progress: Progress, all: seq<Record>,
          limit: Option<nat>) {
    var n := s'.runtime.attemptNumber - s.runtime.attemptNumber;
    var first := s.runtime.attemptNumber + 1;
    match progress
    case Running => n == |turns| && Books(s'.runtime, all + Records(turns, first), limit)
    case Decided(kind, result) => (
      && 0 < n <= |turns| && Books(s'.runtime, all + Records(turns[..n], first), limit)
      && Reports(result, s'.runtime, turns[n - 1], kind))
    case Failed(_) => (
      && 0 < n <= |turns|
      && Books(s'.runtime, all + Records(turns[..if IsRecorded(turns[n - 1]) then n else n - 1], first), limit))
  }

  lemma RecordsCons(turns: seq<Turn>, first: nat, all: seq<Record>)
    requires turns != []
    ensures all + Records(turns, first) == (all + [RecordOf(turns[0], first)]) + Records(turns[1..], first + 1)
  {
  }

  lemma {:induction false} RunBooks(cfg: Config, p: Policy, s: State, turns: seq<Turn>, all: seq<Record>)
    requires ValidConfig(cfg) && Books(s.runtime, all, p.historyLimit)
    ensures var (s', progress) := RunTurns(cfg, p, s, turns);
            RunBooked(s, s', turns, progress, all, p.historyLimit)
    decreases |turns|
  {
    hide TakeTurn, Books, Reports, Records, RecordOf, IsRecorded;
    var first := s.runtime.attemptNumber + 1;
    if turns == [] {
      NoRecords(all, first);
    } else {
      TurnBooks(cfg, p, s, turns[0], all);
      TurnCounts(cfg, p, s, turns[0]);
      var (s1, progress1) := TakeTurn(cfg, p, s, turns[0]);
      var more := all + [RecordOf(turns[0], first)];
      if progress1.Running? {
        RunBooks(cfg, p, s1, turns[1..], more);
        var n := RunTurns(cfg, p, s, turns).0.runtime.attemptNumber - s.runtime.attemptNumber;
        RecordsCons(turns, first, all);
        RecordsOfPrefix(turns, n, first, all);
        if n > 1 {
          RecordsOfPrefix(turns, n - 1, first, all);
        }
      } else {
        RecordsOfPrefix(turns, 1, first, all);
        NoRecords(all, first);
        NoRecords(more, first + 1);
        assert turns[..0] == [] && turns[1..][..0] == [];
      }
    }
  }

  lemma NoRecords(all: seq<Record>, first: nat)
    ensures all + Records([], first) == all
  {
  }

  lemma RecordsOfPrefix(turns: seq<Turn>, n: int, first: nat, all: seq<Record>)
    requires 0 < n <= |turns|
    ensures all + Records(turns[..n], first)
        == (all + [RecordOf(turns[0], first)]) + Records(turns[1..][..n - 1], first + 1)
  {
    assert turns[..n][1..] == turns[1..][..n - 1];
    RecordsCons(turns[..n], first, all);
  }

  /** The records a history keeps are those of the last turns, numbered one after the other. */
  lemma {:induction false} HistoryIsOfLastTurns(kept: seq<Record>, turns: seq<Turn>, limit: Option<nat>, i: nat)
    requires IsHistory(kept, Records(turns, 1), limit) && i < |kept|
    ensures |kept| <= |turns|
    ensures kept[i] == RecordOf(turns[|turns| - |kept| + i], |turns| - |kept| + i + 1)
  {
  }

  /** The report of a run: as many records as the limit admits, those of the last turns in their order, with
      the numbers of their attempts; and counters that count every attempt, kept or not. */
  lemma {:induction false} ResultTellsTheRun(cfg: Config, p: Policy, startedAt: nat, book: Book, turns: seq<Turn>)
    requires ValidConfig(cfg)
    ensures var (s, progress) := RunTurns(cfg, p, Start(startedAt, book), turns);
            progress.Decided? ==>
              var result, n := progress.result, s.runtime.attemptNumber;
              && 0 < n <= |turns| && result.total == n && result.failed + result.succeeded == n
              && |result.attempts| == Kept(n, p.historyLimit)
              && result.failed == Failures(Records(turns[..n], 1))
              && (forall i :: 0 <= i < |result.attempts| ==>
                    result.attempts[i] == RecordOf(turns[n - |result.attempts| + i], n - |result.attempts| + i + 1))
              && result.startedAt == startedAt && result.endedAt == turns[n - 1].sealedAt
              && (progress.kind == Exhaust <==> result.exhausted)
              && OutcomeOf(result, turns[n - 1], progress.kind)
  {
    hide RunTurns, OutcomeOf, Records, Failures, RecordOf, Books, Reports, Kept;
    DecidedRunIsBooked(cfg, p, startedAt, book, turns);
    var (s, progress) := RunTurns(cfg, p, Start(startedAt, book), turns);
    if progress.Decided? {
      ReportedHistory(progress.result, s.runtime, turns, s.runtime.attemptNumber, progress.kind, p.historyLimit);
    }
  }

  lemma {:induction false} DecidedRunIsBooked(cfg: Config, p: Policy, startedAt: nat, book: Book, turns: seq<Turn>)
    requires ValidConfig(cfg)
    ensures var (s, progress) := RunTurns(cfg, p, Start(startedAt, book), turns);
            progress.Decided? ==>
              var n := s.runtime.attemptNumber;
              && 0 < n <= |turns| && s.runtime.startedAt == startedAt
              && Books(s.runtime, Records(turns[..n], 1), p.historyLimit)
              && Reports(progress.result, s.runtime, turns[n - 1], progress.kind)
  {
    hide RunTurns, Records, RecordOf, Books, Reports, IsRecorded;
    var s0 := Start(startedAt, book);
    NothingBooked(startedAt, p.historyLimit);
    RunBooks(cfg, p, s0, turns, []);
    RunStartsAt(cfg, p, s0, turns);
    var (s, progress) := RunTurns(cfg, p, s0, turns);
    if progress.Decided? {
      var n := s.runtime.attemptNumber;
      assert [] + Records(turns[..n], 1) == Records(turns[..n], 1);
    }
  }

  /** What a result reports of the books of a run of `n` turns. */
  lemma {:induction false} ReportedHistory(result: RetryResult, rt: Runtime, turns: seq<Turn>, n: nat, kind: FinalKind,
          limit: Option<nat>)
    requires 0 < n <= |turns| && Books(rt, Records(turns[..n], 1), limit) && Reports(result, rt, turns[n - 1], kind)
    ensures |result.attempts| == Kept(n, limit) && result.failed == Failures(Records(turns[..n], 1))
    ensures result.failed + result.succeeded == n && result.total == rt.attemptNumber
    ensures forall i :: 0 <= i < |result.attempts| ==>
              result.attempts[i] == RecordOf(turns[n - |result.attempts| + i], n - |result.attempts| + i + 1)
    ensures result.startedAt == rt.startedAt && result.endedAt == turns[n - 1].sealedAt
    ensures (kind == Exhaust <==> result.exhausted) && OutcomeOf(result, turns[n - 1], kind)
  {
    hide OutcomeOf, Records, Failures, RecordOf, IsHistory, Kept;
    var kept := result.attempts;
    HistoryLength(kept, Records(turns[..n], 1), limit);
    forall i | 0 <= i < |kept| ensures kept[i] == RecordOf(turns[n - |kept| + i], n - |kept| + i + 1) {
      HistoryIsOfLastTurns(kept, turns[..n], limit, i);
    }
  }

  lemma HistoryLength(kept: seq<Record>, all: seq<Record>, limit: Option<nat>)
    requires IsHistory(kept, all, limit)
    ensures |kept| == Kept(|all|, limit)
  {
  }

  lemma NothingBooked(startedAt: nat, limit: Option<nat>)
    ensures Books(Runtime(startedAt, 0, 0, 0, []), [], limit)
  {
  }

  lemma {:induction false} RunStartsAt(cfg: Config, p: Policy, s: State, turns: seq<Turn>)
    requires ValidConfig(cfg)
    ensures RunTurns(cfg, p, s, turns).0.runtime.startedAt == s.runtime.startedAt
    decreases |turns|
  {
    hide TakeTurn;
    if turns != [] {
      TurnCounts(cfg, p, s, turns[0]);
      var (s1, progress) := TakeTurn(cfg, p, s, turns[0]);
      RunStartsAt(cfg, p, s1, turns[1..]);
    }
  }

  // ---------------------------------------------------------------- retries are asked for

  /** The attempt asks for another: a value the condition rejects, an error it retries, or a signal. */
  predicate WantsAnother(t: Turn) {
    match t.outcome
    case Returned(_, hasValue) => hasValue && t.verdict.WantsRetry?
    case Threw(e) => IsTryAgain(e) || t.verdict.WantsRetry?
    case Aborted(_) => false
  }

  /** A run goes on or is exhausted only after an attempt that asks for another, and accepts a value
      or rejects an error only after one that does not. */
  predicate Asked(t: Turn, progress: Progress) {
    match progress
    case Running => WantsAnother(t)
    case Decided(kind, _) => (
      && (kind == Exhaust <==> WantsAnother(t))
      && (kind == Accept ==> t.outcome.Returned?) && (kind == Reject ==> t.outcome.Threw?))
    case Failed(_) => true
  }

  lemma TurnAsked(cfg: Config, p: Policy, s: State, t: Turn)
    requires ValidConfig(cfg)
    ensures Asked(t, TakeTurn(cfg, p, s, t).1)
  {
    hide PlanRetry, Released, StopsAt, ResultOf, Bounded;
    forall x: State, value, error, cause
      ensures var d := PlanRetry(cfg, p, x, t, value, error, cause).1;
              d.Final? ==> d.kind == Exhaust
    {
      PlanRetryReports(cfg, p, x, t, value, error, cause);
    }
  }

  /** Every retry was asked for by the attempt before it, and the last attempt decides as it asks. */
  lemma {:induction false} RetriesAreAskedFor(cfg: Config, p: Policy, s: State, turns: seq<Turn>)
    requires ValidConfig(cfg)
    ensures var (s', progress) := RunTurns(cfg, p, s, turns);
            var n := s'.runtime.attemptNumber - s.runtime.attemptNumber;
            && 0 <= n <= |turns| && (n == 0 <==> turns == []) && (forall i :: 0 <= i < n - 1 ==> WantsAnother(turns[i]))
            && (n > 0 ==> Asked(turns[n - 1], progress))
    decreases |turns|
  {
    hide TakeTurn, WantsAnother;
    if turns != [] {
      TurnAsked(cfg, p, s, turns[0]);
      TurnCounts(cfg, p, s, turns[0]);
      var (s1, progress) := TakeTurn(cfg, p, s, turns[0]);
      if progress.Running? {
        RetriesAreAskedFor(cfg, p, s1, turns[1..]);
      }
    }
  }
}
