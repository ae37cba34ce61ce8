/** Whole runs, read off their scripts: how each of their retries waited, and what ended them. */
module Runs {
  import opened Options
  import opened BudgetState
  import opened FlowState
  import opened FlowLaws
  import opened Decisions
  import BudgetRuns

  // ---------------------------------------------------------------- what ends a run

  /** A run that has ended goes on through all its turns but the last, sleeping after each, and the last ends it. */
  lemma {:induction false} LastTurnCloses(cfg: Config, p: Policy, s: State, turns: seq<Turn>)
    requires ValidConfig(cfg)
    ensures var (s', progress) := RunTurns(cfg, p, s, turns);
            var n := s'.runtime.attemptNumber - s.runtime.attemptNumber;
            && |s'.trace.sleeps| == |s.trace.sleeps| + (if progress.Running? then n else n - 1)
            && (progress.Running? ==> n == |turns|)
            && (!progress.Running? ==>
                  && 0 < n <= |turns|
                  && var (before, goesOn) := RunTurns(cfg, p, s, turns[..n - 1]);
                     goesOn == Running && TakeTurn(cfg, p, before, turns[n - 1]) == (s', progress))
    decreases |turns|
  {
    hide TakeTurn;
    if turns != [] {
      TurnCounts(cfg, p, s, turns[0]);
      var (s1, progress) := TakeTurn(cfg, p, s, turns[0]);
      if progress.Running? {
        LastTurnCloses(cfg, p, s1, turns[1..]);
        var (s', end) := RunTurns(cfg, p, s1, turns[1..]);
        if !end.Running? {
          var n := s'.runtime.attemptNumber - s.runtime.attemptNumber;
          assert turns[..n - 1][0] == turns[0] && turns[..n - 1][1..] == turns[1..][..n - 2];
        }
      } else {
        assert turns[..0] == [];
      }
    }
  }

  /** What ends a run: it is still running, or its last turn has ended it as that turn's own script says,
      taken in the state that the turns before it have left, all of which slept. */
  lemma {:induction false} RunEndsAsItsLastTurn(cfg: Config, p: Policy, startedAt: nat, book: Book, turns: seq<Turn>)
    requires ValidConfig(cfg)
    ensures var s0 := Start(startedAt, book);
            var (s, progress) := RunTurns(cfg, p, s0, turns);
            var n := s.runtime.attemptNumber;
            && n <= |turns| && (progress.Running? ==> n == |turns|)
            && (!progress.Running? ==>
                  n > 0 && Ends(cfg, p, RunTurns(cfg, p, s0, turns[..n - 1]).0, turns[n - 1], progress))
            && forall i :: 0 <= i < (if progress.Running? then n else n - 1) ==>
                 Sleeps(cfg, p, RunTurns(cfg, p, s0, turns[..i]).0, turns[i]) && turns[i].sleeper.Fine?
  {
    hide RunTurns, TakeTurn, Ends, Sleeps;
    var s0 := Start(startedAt, book);
    var (s, progress) := RunTurns(cfg, p, s0, turns);
    LastTurnCloses(cfg, p, s0, turns);
    var n := s.runtime.attemptNumber;
    if !progress.Running? {
      TurnMeans(cfg, p, RunTurns(cfg, p, s0, turns[..n - 1]).0, turns[n - 1]);
    }
    forall i | 0 <= i < (if progress.Running? then n else n - 1)
      ensures Sleeps(cfg, p, RunTurns(cfg, p, s0, turns[..i]).0, turns[i]) && turns[i].sleeper.Fine?
    {
      TurnSlept(cfg, p, s0, turns, i);
    }
  }

  /** A turn that is not the last of a run has slept. */
  lemma {:induction false} TurnSlept(cfg: Config, p: Policy, s: State, turns: seq<Turn>, i: nat)
    requires ValidConfig(cfg) && i < |turns|
    requires var (s', progress) := RunTurns(cfg, p, s, turns);
             i < s'.runtime.attemptNumber - s.runtime.attemptNumber - (if progress.Running? then 0 else 1)
    ensures Sleeps(cfg, p, RunTurns(cfg, p, s, turns[..i]).0, turns[i]) && turns[i].sleeper.Fine?
    decreases i
  {
    hide TakeTurn, Sleeps, Leaves, FailsWith;
    TurnMeans(cfg, p, s, turns[0]);
    TurnCounts(cfg, p, s, turns[0]);
    var (s1, progress) := TakeTurn(cfg, p, s, turns[0]);
    if i == 0 {
      assert turns[..0] == [];
    } else {
      TurnSlept(cfg, p, s1, turns[1..], i - 1);
      assert turns[..i][1..] == turns[1..][..i - 1];
    }
  }

  // ---------------------------------------------------------------- how retries wait

  /** A retry with a budget asks for a slot at the end of its delay, and sleeps for as long as that slot
      lies after the plan, which is no less than the delay and no more than a day. */
  predicate WaitedForSlot(key: string, t: Turn, op: BudgetRuns.Op, answer: BudgetRuns.Answer, sleep: Sleep) {
    && t.backoff.Seconds? && 0 <= t.backoff.ticks
    && op == BudgetRuns.Reserve(key, t.plannedAt, t.plannedAt + t.backoff.ticks) && answer.Granted?
    && var slot := answer.reservation.scheduledAt;
       && t.plannedAt + t.backoff.ticks <= slot <= t.plannedAt + DAY
       && sleep == Sleep(t.recheckedAt, slot - t.plannedAt)
  }

  /** A last turn that has asked for a slot gives that slot back. */
  predicate GaveBack(key: string, t: Turn, ops: seq<BudgetRuns.Op>, answers: seq<BudgetRuns.Answer>) {
    && t.backoff.Seconds? && 0 <= t.backoff.ticks <= DAY
    && |answers| == 2 && answers[0].Granted? && answers[1] == BudgetRuns.Done
    && answers[0].reservation.scheduledAt >= t.plannedAt + t.backoff.ticks
    && ops == [BudgetRuns.Reserve(key, t.plannedAt, t.plannedAt + t.backoff.ticks),
               BudgetRuns.Release(answers[0].reservation, t.releasedAt)]
  }

  lemma TurnWaits(cfg: Config, p: Policy, s: State, t: Turn, key: string)
    requires ValidConfig(cfg) && p.budgetKey == Some(key)
    ensures var (s', progress) := TakeTurn(cfg, p, s, t);
            if progress.Running? then
              exists op, answer, sleep ::
                && WaitedForSlot(key, t, op, answer, sleep)
                && s'.trace.ops == s.trace.ops + [op] && s'.trace.answers == s.trace.answers + [answer]
                && s'.trace.sleeps == s.trace.sleeps + [sleep]
            else
              && s'.trace.sleeps == s.trace.sleeps
              && ((s'.trace.ops == s.trace.ops && s'.trace.answers == s.trace.answers)
                  || exists ops, answers :: GaveBack(key, t, ops, answers)
                       && s'.trace.ops == s.trace.ops + ops && s'.trace.answers == s.trace.answers + answers)
  {
    hide TakeTurn, EventsOf, InTime, FailsWith, GoesOn;
    TurnMeans(cfg, p, s, t);
    var (s', progress) := TakeTurn(cfg, p, s, t);
    if GoesOn(p, s, t) && HasDelay(t) {
      var r := SlotFor(cfg, s.book, key, t);
      assert DueAt(cfg, p, s, t) == r.scheduledAt;
      var op, answer := BudgetRuns.Reserve(key, t.plannedAt, t.plannedAt + t.backoff.ticks), BudgetRuns.Granted(r);
      if progress.Running? {
        assert WaitedForSlot(key, t, op, answer, Sleep(t.recheckedAt, WaitFor(cfg, p, s, t)));
      } else {
        NotRunning(cfg, p, s, t, progress);
        assert GaveBack(key, t, [op, BudgetRuns.Release(r, t.releasedAt)], [answer, BudgetRuns.Done]);
        assert [op] + [BudgetRuns.Release(r, t.releasedAt)] == [op, BudgetRuns.Release(r, t.releasedAt)];
        assert [answer] + [BudgetRuns.Done] == [answer, BudgetRuns.Done];
      }
    }
  }

  lemma NotRunning(cfg: Config, p: Policy, s: State, t: Turn, progress: Progress)
    requires ValidConfig(cfg) && Ends(cfg, p, s, t, progress) && !progress.Running?
    ensures !(Sleeps(cfg, p, s, t) && t.sleeper.Fine?)
  {
    if Sleeps(cfg, p, s, t) && t.sleeper.Fine? {
      EndsInOneWay(cfg, p, s, t, progress, Running);
    }
  }

  /** What a run with a budget has done since state `s`, which had called the budget once for each sleep. */
  ghost predicate WaitedSince(key: string, turns: seq<Turn>, s: State, s': State, progress: Progress) {
    var (k, now) := (|s.trace.sleeps|, s'.trace);
    var n := |now.sleeps| - k;
    && s.trace.ops <= now.ops && s.trace.answers <= now.answers && s.trace.sleeps <= now.sleeps
    && 0 <= n <= |turns| && k + n <= |now.ops| == |now.answers|
    && (forall i :: 0 <= i < n ==> WaitedForSlot(key, turns[i], now.ops[k + i], now.answers[k + i], now.sleeps[k + i]))
    && (k + n == |now.ops| || (n < |turns| && GaveBack(key, turns[n], now.ops[k + n..], now.answers[k + n..])))
    && (progress.Running? ==> n == |turns| && k + n == |now.ops|)
  }

  lemma WaitedOn(key: string, turns: seq<Turn>, s: State, s1: State, s': State, progress: Progress)
    requires turns != [] && |s.trace.ops| == |s.trace.answers| == |s.trace.sleeps|
    requires |s1.trace.ops| == |s1.trace.answers| == |s1.trace.sleeps| == |s.trace.sleeps| + 1
    requires s.trace.ops <= s1.trace.ops && s.trace.answers <= s1.trace.answers && s.trace.sleeps <= s1.trace.sleeps
    requires var k := |s.trace.sleeps|;
             WaitedForSlot(key, turns[0], s1.trace.ops[k], s1.trace.answers[k], s1.trace.sleeps[k])
    requires WaitedSince(key, turns[1..], s1, s', progress)
    ensures WaitedSince(key, turns, s, s', progress)
  {
    hide WaitedForSlot, GaveBack;
    var (k, now) := (|s.trace.sleeps|, s'.trace);
    forall i | 0 <= i < |now.sleeps| - k
      ensures WaitedForSlot(key, turns[i], now.ops[k + i], now.answers[k + i], now.sleeps[k + i])
    {
      if i > 0 {
        assert turns[i] == turns[1..][i - 1];
        var j := i - 1;
        assert WaitedForSlot(key, turns[1..][j], now.ops[k + 1 + j], now.answers[k + 1 + j], now.sleeps[k + 1 + j]);
      }
    }
  }

  lemma {:induction false} RunWaits(cfg: Config, p: Policy, s: State, turns: seq<Turn>, key: string)
    requires ValidConfig(cfg) && p.budgetKey == Some(key)
    requires |s.trace.ops| == |s.trace.answers| == |s.trace.sleeps|
    ensures var (s', progress) := RunTurns(cfg, p, s, turns);
            WaitedSince(key, turns, s, s', progress)
    decreases |turns|
  {
    hide TakeTurn, WaitedForSlot, GaveBack, WaitedSince;
    if turns == [] {
      NotYetWaited(key, s);
    } else {
      TurnWaits(cfg, p, s, turns[0], key);
      var (s1, progress) := TakeTurn(cfg, p, s, turns[0]);
      if progress.Running? {
        RunWaits(cfg, p, s1, turns[1..], key);
        var (s', end) := RunTurns(cfg, p, s1, turns[1..]);
        WaitedOn(key, turns, s, s1, s', end);
      } else {
        WaitedNoMore(key, turns, s, s1, progress);
      }
    }
  }

  lemma NotYetWaited(key: string, s: State)
    requires |s.trace.ops| == |s.trace.answers| == |s.trace.sleeps|
    ensures WaitedSince(key, [], s, s, Running)
  {
  }

  lemma WaitedNoMore(key: string, turns: seq<Turn>, s: State, s': State, progress: Progress)
    requires turns != [] && !progress.Running? && |s.trace.ops| == |s.trace.answers| == |s.trace.sleeps|
    requires s'.trace.sleeps == s.trace.sleeps
    requires || (s'.trace.ops == s.trace.ops && s'.trace.answers == s.trace.answers)
             || exists ops, answers :: GaveBack(key, turns[0], ops, answers)
                  && s'.trace.ops == s.trace.ops + ops && s'.trace.answers == s.trace.answers + answers
    ensures WaitedSince(key, turns, s, s', progress)
  {
    if ops, answers :| GaveBack(key, turns[0], ops, answers)
                       && s'.trace.ops == s.trace.ops + ops && s'.trace.answers == s.trace.answers + answers {
      assert s'.trace.ops[|s.trace.ops|..] == ops && s'.trace.answers[|s.trace.ops|..] == answers;
    }
  }

  /** The calls, answers and sleeps of a run with a budget, one of each for every turn that has slept; a last
      turn may have called the budget in vain. */
  ghost predicate WaitedForSlots(key: string, turns: seq<Turn>, now: Trace) {
    var n := |now.sleeps|;
    && n <= |turns| && n <= |now.ops| == |now.answers|
    && (forall i :: 0 <= i < n ==> WaitedForSlot(key, turns[i], now.ops[i], now.answers[i], now.sleeps[i]))
    && (n == |now.ops| || (n < |turns| && GaveBack(key, turns[n], now.ops[n..], now.answers[n..])))
  }

  lemma WaitedSinceStart(key: string, turns: seq<Turn>, s: State, s': State, progress: Progress)
    requires s.trace.sleeps == [] && WaitedSince(key, turns, s, s', progress)
    ensures WaitedForSlots(key, turns, s'.trace)
  {
    hide WaitedForSlot, GaveBack;
    var now := s'.trace;
    forall i | 0 <= i < |now.sleeps| ensures WaitedForSlot(key, turns[i], now.ops[i], now.answers[i], now.sleeps[i]) {
      assert WaitedForSlot(key, turns[i], now.ops[0 + i], now.answers[0 + i], now.sleeps[0 + i]);
    }
  }

  /** How the retries of a run with a budget wait. The reservation of turn `i` is asked for the end of
      that turn's delay, its sleep is as long as the granted slot lies after the plan, and so no shorter
      than the delay. The last turn gives back what it was granted. */
  lemma RetriesWaitForSlots(cfg: Config, p: Policy, startedAt: nat, book: Book, turns: seq<Turn>, key: string)
    requires ValidConfig(cfg) && p.budgetKey == Some(key)
    ensures var now := RunTurns(cfg, p, Start(startedAt, book), turns).0.trace;
            && WaitedForSlots(key, turns, now)
            && forall i :: 0 <= i < |now.sleeps| ==> now.sleeps[i].ticks >= turns[i].backoff.ticks
  {
    hide RunTurns, WaitedSince, GaveBack;
    var s0 := Start(startedAt, book);
    RunWaits(cfg, p, s0, turns, key);
    var (s, progress) := RunTurns(cfg, p, s0, turns);
    WaitedSinceStart(key, turns, s0, s, progress);
    forall i | 0 <= i < |s.trace.sleeps| ensures s.trace.sleeps[i].ticks >= turns[i].backoff.ticks {
      assert WaitedForSlot(key, turns[i], s.trace.ops[i], s.trace.answers[i], s.trace.sleeps[i]);
    }
  }

  lemma {:induction false} RunDelays(cfg: Config, p: Policy, s: State, turns: seq<Turn>)
    requires ValidConfig(cfg) && p.budgetKey == None
    ensures var s' := RunTurns(cfg, p, s, turns).0;
            var (k, n) := (|s.trace.sleeps|, |s'.trace.sleeps| - |s.trace.sleeps|);
            && s.trace.sleeps <= s'.trace.sleeps && n <= |turns|
            && forall i :: 0 <= i < n ==>
                 HasDelay(turns[i]) && s'.trace.sleeps[k + i] == Sleep(turns[i].recheckedAt, turns[i].backoff.ticks)
    decreases |turns|
  {
    hide TakeTurn;
    if turns != [] {
      TurnDelays(cfg, p, s, turns[0]);
      var (s1, progress) := TakeTurn(cfg, p, s, turns[0]);
      if progress.Running? {
        RunDelays(cfg, p, s1, turns[1..]);
        var s' := RunTurns(cfg, p, s, turns).0;
        var k := |s.trace.sleeps|;
        forall i | 0 <= i < |s'.trace.sleeps| - k
          ensures HasDelay(turns[i]) && s'.trace.sleeps[k + i] == Sleep(turns[i].recheckedAt, turns[i].backoff.ticks)
        {
          if i > 0 {
            assert turns[i] == turns[1..][i - 1] && s'.trace.sleeps[k + 1 + (i - 1)] == s'.trace.sleeps[k + i];
          }
        }
      }
    }
  }

  lemma TurnDelays(cfg: Config, p: Policy, s: State, t: Turn)
    requires ValidConfig(cfg) && p.budgetKey == None
    ensures var (s', progress) := TakeTurn(cfg, p, s, t);
            if progress.Running? then
              HasDelay(t) && s'.trace.sleeps == s.trace.sleeps + [Sleep(t.recheckedAt, t.backoff.ticks)]
            else s'.trace.sleeps == s.trace.sleeps
  {
    hide TakeTurn, EventsOf, InTime, FailsWith, GoesOn;
    TurnMeans(cfg, p, s, t);
    var progress := TakeTurn(cfg, p, s, t).1;
    if !progress.Running? {
      NotRunning(cfg, p, s, t, progress);
    }
  }

  /** Without a budget, the sleep of turn `i` lasts exactly that turn's delay. */
  lemma RetriesWaitTheirDelay(cfg: Config, p: Policy, startedAt: nat, book: Book, turns: seq<Turn>)
    requires ValidConfig(cfg) && p.budgetKey == None
    ensures var sleeps := RunTurns(cfg, p, Start(startedAt, book), turns).0.trace.sleeps;
            |sleeps| <= |turns| && forall i :: 0 <= i < |sleeps| ==>
              HasDelay(turns[i]) && sleeps[i] == Sleep(turns[i].recheckedAt, turns[i].backoff.ticks)
  {
    hide RunTurns;
    RunDelays(cfg, p, Start(startedAt, book), turns);
  }

  // ---------------------------------------------------------------- the budget behind a run

  /** The budget that has heard `heard` is where the run finds it. */
  ghost predicate HasHeard(cfg: Config, heard: seq<BudgetRuns.Op>, answers: seq<BudgetRuns.Answer>, book: Book)
    requires ValidConfig(cfg)
  {
    BudgetRuns.Steady(cfg.ar, heard) && BudgetRuns.Run(cfg, heard) == (book, answers)
  }

  lemma HearsReserve(cfg: Config, heard: seq<BudgetRuns.Op>, answers: seq<BudgetRuns.Answer>, book: Book, key: string,
          current: nat, notBefore: nat)
    requires ValidConfig(cfg) && ValidKey(key) && HasHeard(cfg, heard, answers, book)
    ensures var (after, r) := ReserveStep(cfg, book, key, current, notBefore);
            var op := BudgetRuns.Reserve(key, current, notBefore);
            HasHeard(cfg, heard + [op], answers + [BudgetRuns.Granted(r)], after)
  {
    hide BudgetRuns.Run, ReserveStep, ValidKey;
    BudgetRuns.RunGoesOn(cfg, heard, BudgetRuns.Reserve(key, current, notBefore));
  }

  lemma HearsRelease(cfg: Config, heard: seq<BudgetRuns.Op>, answers: seq<BudgetRuns.Answer>, book: Book,
          r: Reservation, current: nat)
    requires ValidConfig(cfg) && HasHeard(cfg, heard, answers, book)
    ensures var after := ReleaseStep(cfg, book, r, current);
            HasHeard(cfg, heard + [BudgetRuns.Release(r, current)], answers + [BudgetRuns.Done], after)
  {
    hide BudgetRuns.Run, ReleaseStep;
    BudgetRuns.RunGoesOn(cfg, heard, BudgetRuns.Release(r, current));
  }

  lemma TurnIsHeard(cfg: Config, p: Policy, s: State, t: Turn, heard: seq<BudgetRuns.Op>,
          answers: seq<BudgetRuns.Answer>)
    requires ValidConfig(cfg) && HasHeard(cfg, heard, answers, s.book)
    requires p.budgetKey.Some? ==> ValidKey(p.budgetKey.value)
    ensures HasHeard(cfg, heard + CallsOf(cfg, p, s, t), answers + AnswersTo(cfg, p, s, t), BookAfter(cfg, p, s, t))
  {
    hide HasHeard, ReserveStep, ReleaseStep, ValidKey, GoesOn, Sleeps;
    if GoesOn(p, s, t) && HasDelay(t) && p.budgetKey.Some? {
      var key := p.budgetKey.value;
      var (r, book) := (SlotFor(cfg, s.book, key, t), BookWith(cfg, s.book, key, t));
      var op := BudgetRuns.Reserve(key, t.plannedAt, t.plannedAt + t.backoff.ticks);
      HearsReserve(cfg, heard, answers, s.book, key, t.plannedAt, t.plannedAt + t.backoff.ticks);
      HearsRelease(cfg, heard + [op], answers + [BudgetRuns.Granted(r)], book, r, t.releasedAt);
      ConcatAssociates(heard, [op], [BudgetRuns.Release(r, t.releasedAt)]);
      ConcatAssociates(answers, [BudgetRuns.Granted(r)], [BudgetRuns.Done]);
      assert [op] + [] == [op] && [BudgetRuns.Granted(r)] + [] == [BudgetRuns.Granted(r)];
    } else {
      assert heard + [] == heard && answers + [] == answers;
    }
  }

  lemma {:induction false} RunIsHeard(cfg: Config, p: Policy, s: State, turns: seq<Turn>, before: seq<BudgetRuns.Op>,
          answers: seq<BudgetRuns.Answer>)
    requires ValidConfig(cfg) && (p.budgetKey.Some? ==> ValidKey(p.budgetKey.value))
    requires HasHeard(cfg, before + s.trace.ops, answers + s.trace.answers, s.book)
    ensures var s' := RunTurns(cfg, p, s, turns).0;
            HasHeard(cfg, before + s'.trace.ops, answers + s'.trace.answers, s'.book)
    decreases |turns|
  {
    hide TakeTurn, HasHeard, ValidKey, CallsOf, AnswersTo, BookAfter, EventsOf, Ends;
    if turns != [] {
      TurnMeans(cfg, p, s, turns[0]);
      TurnIsHeard(cfg, p, s, turns[0], before + s.trace.ops, answers + s.trace.answers);
      ConcatAssociates(before, s.trace.ops, CallsOf(cfg, p, s, turns[0]));
      ConcatAssociates(answers, s.trace.answers, AnswersTo(cfg, p, s, turns[0]));
      var (s1, progress) := TakeTurn(cfg, p, s, turns[0]);
      if progress.Running? {
        RunIsHeard(cfg, p, s1, turns[1..], before, answers);
      }
    }
  }

  /** The answers in the trace of a run are those of the budget it uses, and it leaves that budget as
      its calls have made it. */
  lemma AnswersAreTheBudgets(cfg: Config, p: Policy, startedAt: nat, before: seq<BudgetRuns.Op>, turns: seq<Turn>)
    requires ValidConfig(cfg) && ValidPolicy(p) && BudgetRuns.Steady(cfg.ar, before)
    ensures var (book, answers) := BudgetRuns.Run(cfg, before);
            var s := RunTurns(cfg, p, Start(startedAt, book), turns).0;
            && BudgetRuns.Steady(cfg.ar, before + s.trace.ops)
            && BudgetRuns.Run(cfg, before + s.trace.ops) == (s.book, answers + s.trace.answers)
  {
    hide RunTurns, BudgetRuns.Run, ValidKey;
    var (book, answers) := BudgetRuns.Run(cfg, before);
    assert before + [] == before && answers + [] == answers;
    RunIsHeard(cfg, p, Start(startedAt, book), turns, before, answers);
  }
}
