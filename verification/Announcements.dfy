/** Sleeps that are announced, and those of them that are called off. */
module Announcements {
  import opened Options
  import opened Stops
  import opened BudgetState
  import opened FlowState
  import opened FlowLaws
  import opened Decisions
  import opened Runs

  /** How many sleeps the events announce. */
  function Announced(events: seq<Event>): nat {
    if events == [] then 0 else Announced(events[1..]) + if events[0] == BeforeSleep then 1 else 0
  }

  lemma {:induction false} AnnouncedConcat(a: seq<Event>, b: seq<Event>)
    ensures Announced(a + b) == Announced(a) + Announced(b)
  {
    if a == [] {
      assert a + b == b;
    } else {
      assert (a + b)[1..] == a[1..] + b;
      AnnouncedConcat(a[1..], b);
    }
  }

  /** Turn `t`, taken in state `s`, announces a sleep that the strategy lets pass before the handlers and
      stops after them. */
  ghost predicate CalledOff(cfg: Config, p: Policy, s: State, t: Turn)
    requires ValidConfig(cfg)
  {
    Announces(cfg, p, s, t) && t.beforeSleep.Fine? && !InTime(cfg, p, s, t, t.recheckedAt)
  }

  /** A turn that comes to a decision announces a sleep exactly when that sleep is called off. */
  lemma DecisionAnnounces(cfg: Config, p: Policy, s: State, t: Turn)
    requires ValidConfig(cfg)
    ensures var (s', progress) := TakeTurn(cfg, p, s, t);
            progress.Decided? ==>
              Announced(s'.trace.events) == Announced(s.trace.events) + if CalledOff(cfg, p, s, t) then 1 else 0
  {
    hide TakeTurn, InTime, Announced, EventsOf;
    TurnMeans(cfg, p, s, t);
    AnnouncedConcat(s.trace.events, EventsOf(cfg, p, s, t));
    AnnouncedInTurn(cfg, p, s, t);
  }

  lemma AnnouncedInTurn(cfg: Config, p: Policy, s: State, t: Turn)
    requires ValidConfig(cfg)
    ensures Announced(EventsOf(cfg, p, s, t)) == if Announces(cfg, p, s, t) then 1 else 0
  {
    hide Announced, Announces, Exhausts, Settles;
    var told := if Judged(t) && t.outcome.Threw? then [AfterFailure] else [];
    var announced := if Announces(cfg, p, s, t) then [BeforeSleep] else [];
    var success := if Settles(t) && t.outcome.Returned? then [AfterSuccess] else [];
    var over := if (Settles(t) && t.outcome.Threw?) || Exhausts(cfg, p, s, t) then [AfterGiveup] else [];
    AnnouncedConcat([BeforeAttempt] + told + announced + success, over);
    AnnouncedConcat([BeforeAttempt] + told + announced, success);
    AnnouncedConcat([BeforeAttempt] + told, announced);
    AnnouncedConcat([BeforeAttempt], told);
    AnnouncedOne();
    AnnouncedOther(BeforeAttempt);
    AnnouncedOther(AfterFailure);
    AnnouncedOther(AfterSuccess);
    AnnouncedOther(AfterGiveup);
  }

  lemma AnnouncedOne()
    ensures Announced([BeforeSleep]) == 1 && Announced([]) == 0
  {
  }

  lemma AnnouncedOther(e: Event)
    requires e != BeforeSleep
    ensures Announced([e]) == 0
  {
  }

  lemma {:induction false} RoundsAnnounce(turns: seq<Turn>)
    ensures Announced(Rounds(turns)) == |turns|
  {
    if turns != [] {
      RoundsAnnounce(turns[1..]);
      var t := turns[0];
      AnnouncedConcat(RoundEvents(t), Rounds(turns[1..]));
      AnnouncedConcat([BeforeAttempt] + FailureEvent(t), [BeforeSleep]);
      AnnouncedConcat([BeforeAttempt], FailureEvent(t));
    }
  }

  /** The sleeps that a decided run announces are those that it completes, and one more exactly when
      its last turn has called one off. */
  lemma AnnouncedAndCalledOff(cfg: Config, p: Policy, startedAt: nat, book: Book, turns: seq<Turn>)
    requires ValidConfig(cfg)
    ensures var (s, progress) := RunTurns(cfg, p, Start(startedAt, book), turns);
            progress.Decided? ==>
              && 0 < s.runtime.attemptNumber <= |turns|
              && var last := s.runtime.attemptNumber - 1;
                 var before := RunTurns(cfg, p, Start(startedAt, book), turns[..last]).0;
                 Announced(s.trace.events) == |s.trace.sleeps| + if CalledOff(cfg, p, before, turns[last]) then 1 else 0
  {
    hide RunTurns, TakeTurn, Rounds, Announced, CalledOff;
    var s0 := Start(startedAt, book);
    var (s, progress) := RunTurns(cfg, p, s0, turns);
    LastTurnCloses(cfg, p, s0, turns);
    if progress.Decided? {
      var last := s.runtime.attemptNumber - 1;
      var before := RunTurns(cfg, p, s0, turns[..last]).0;
      var n, events := EventLanguage(cfg, p, s0, turns[..last]);
      assert before.trace.events == Rounds(turns[..last]);
      RoundsAnnounce(turns[..last]);
      DecisionAnnounces(cfg, p, before, turns[last]);
    }
  }

  /** An attempt that fails at once and asks for another, without delay; the handlers of its announced
      sleep take ten ticks. */
  const SLOW_HANDLERS := Turn(Fine, 0, Threw(Raised(0, true, false, None, None, false)), WantsRetry, 0, Fine,
                              Seconds(0), 0, 0, Fine, 10, 10, 10, Fine, Fine)

  /** Under a limit of ten ticks its sleep is announced and never slept, and the run gives up. */
  lemma AnnouncedInVain(cfg: Config, p: Policy, book: Book)
    requires ValidConfig(cfg) && p.stop == AfterDelay(10) && p.budgetKey == None
    ensures var (s, progress) := RunTurns(cfg, p, Start(0, book), [SLOW_HANDLERS]);
            && progress.Decided? && progress.kind == Exhaust
            && s.trace.events == [BeforeAttempt, AfterFailure, BeforeSleep, AfterGiveup] && s.trace.sleeps == []
            && CalledOff(cfg, p, Start(0, book), SLOW_HANDLERS)
  {
    hide Reserved, ReleaseStep;
  }
}
