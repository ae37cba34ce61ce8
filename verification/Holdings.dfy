/** What executions on one shared budget hold, at every moment of any interleaving: nothing leaks. */
module Holdings {
  import opened Options
  import opened RollingWindow
  import opened BudgetState
  import opened BudgetLaws
  import opened FlowState
  import opened FlowLaws
  import FleetMembers
  import opened Interleaving
  import BudgetRuns
  import Fleet

  // ---------------------------------------------------------------- what is outstanding

  /** The executions that sleep, or have planned a retry and are about to give it up. */
  function Planned(members: seq<Member>): set<nat> {
    set id: nat | id < |members| && HasPlanned(members[id])
  }

  ghost function HeldInAll(g: Setting, w: World): seq<Reservation>
    requires IsShared(g)
  {
    BudgetRuns.Outstanding(w.ops, RunOf(g.per, g.capacity, w.ops).1, g.key)
  }

  lemma WaitingArePlanned(g: Setting, w: World, fleet: Fleet.Fleet, clock: nat)
    requires Mirrors(g, w, fleet, clock)
    ensures |fleet.waiting| == |Planned(w.members)|
  {
    hide Waits, HasPlanned;
    forall id: nat ensures id in fleet.waiting <==> id in Planned(w.members) {
      assert MemberMirrored(g, w, fleet, id);
    }
    assert fleet.waiting.Keys == Planned(w.members);
  }

  /** However whole executions interleave on a budget, what is outstanding numbers the retries that
      have begun and the executions that have planned one: when none has, only the retries begun. */
  lemma NothingLeaks(g: Setting, drift: nat, moves: seq<nat>)
    requires IsShared(g)
    ensures var w := Play(g, drift, moves);
            |HeldInAll(g, w)| == |w.begun| + |Planned(w.members)|
  {
    hide IsShared, Play, History, Mirrors, Planned, Fleet.Possible, Fleet.Run, BudgetRuns.Run, BudgetRuns.Outstanding;
    InterleavingsAreFleets(g, drift, moves);
    SharedSetting(g);
    var w, steps := Play(g, drift, moves), History(g, drift, moves);
    var fleet := Fleet.Run(g.per, g.capacity, g.key, steps);
    Fleet.AlwaysTracked(g.per, g.capacity, g.key, drift, steps);
    WaitingArePlanned(g, w, fleet, Fleet.Clock(steps));
    SameHistory(g, w, fleet, Fleet.Clock(steps));
  }

  lemma SameHistory(g: Setting, w: World, fleet: Fleet.Fleet, clock: nat)
    requires Mirrors(g, w, fleet, clock)
    ensures fleet.ops == w.ops && |fleet.starts| == |w.begun|
  {
  }

  // ---------------------------------------------------------------- what each of them holds

  /** A token was taken from the budget exactly when it was called. */
  predicate TookTokens(s: State, s': State) {
    && |s.trace.ops| <= |s'.trace.ops|
    && s'.book.nextToken == s.book.nextToken + if |s'.trace.ops| == |s.trace.ops| then 0 else 1
  }

  lemma ReleaseTakesNone(cfg: Config, before: State, s: State, plan: Plan, current: nat)
    requires TookTokens(before, s) && (plan.reservation.Some? ==> |s.trace.ops| > |before.trace.ops|)
    ensures TookTokens(before, Released(cfg, s, plan, current))
  {
    hide ReleaseStep;
    if plan.reservation.Some? {
      BudgetRuns.ReleaseShape(cfg, s.book, plan.reservation.value, current);
      CountingSweeps(cfg.ar, s.book, current);
    }
  }

  lemma PlanningTokens(cfg: Config, p: Policy, s: State, t: Turn)
    requires ValidConfig(cfg)
    ensures var (s', planning) := PlanRetryWait(cfg, p, s, t);
            && TookTokens(s, s')
            && (planning.Planned? && planning.plan.reservation.Some? ==> |s'.trace.ops| > |s.trace.ops|)
  {
    hide Earliest, Live, Sweep, Released;
    if t.backoff.Seconds? && 0 <= t.backoff.ticks <= MAX_SLEEP && p.budgetKey.Some? {
      var notBefore := t.plannedAt + t.backoff.ticks;
      var (s1, r) := Reserved(cfg, s, p.budgetKey.value, t.plannedAt, notBefore);
      var budgetDelay := if r.scheduledAt > notBefore then r.scheduledAt - notBefore else 0;
      ReleaseTakesNone(cfg, s, s1, Plan(t.backoff.ticks, budgetDelay, t.backoff.ticks + budgetDelay, Some(r)),
          t.releasedAt);
    }
  }

  lemma PlanRetryTokens(cfg: Config, p: Policy, s: State, t: Turn, value: Value, error: Option<Error>, cause: Cause)
    requires ValidConfig(cfg)
    ensures var (s', d) := PlanRetry(cfg, p, s, t, value, error, cause);
            && TookTokens(s, s')
            && (d.Wait? && d.plan.reservation.Some? ==> |s'.trace.ops| > |s.trace.ops|)
  {
    hide PlanRetryWait, Released, StopsAt, ResultOf;
    PlanningTokens(cfg, p, s, t);
    var (s1, planning) := PlanRetryWait(cfg, p, s, t);
    if planning.Planned? {
      ReleaseTakesNone(cfg, s, s1, planning.plan, t.releasedAt);
      ReleaseTakesNone(cfg, s, Emit(s1, BeforeSleep), planning.plan, t.releasedAt);
    }
  }

  lemma TurnTokens(cfg: Config, p: Policy, s: State, t: Turn)
    requires ValidConfig(cfg)
    ensures TookTokens(s, TakeTurn(cfg, p, s, t).0)
  {
    hide PlanRetry, StopsAt, ResultOf, Recorded, Released;
    forall x: State, value, error, cause | x.trace.ops == s.trace.ops && x.book == s.book
      ensures var (s', d) := PlanRetry(cfg, p, x, t, value, error, cause);
              TookTokens(s, s') && (d.Wait? && d.plan.reservation.Some? ==> |s'.trace.ops| > |s.trace.ops|)
    {
      PlanRetryTokens(cfg, p, x, t, value, error, cause);
    }
    var (s1, d) := Attempt(cfg, p, s, t);
    if d.Wait? {
      ReleaseTakesNone(cfg, s, s1, d.plan, t.releasedAt);
    }
  }

  /** No execution is ahead of the shared budget: the tokens it has seen handed out, all have. */
  ghost predicate TokensBehind(g: Setting, w: World)
    requires IsShared(g)
  {
    forall id :: 0 <= id < |w.members| ==> w.members[id].state.book.nextToken <= SharedBook(g, w.ops).nextToken
  }

  lemma SharedTokens(g: Setting, ops: seq<BudgetRuns.Op>, op: BudgetRuns.Op)
    requires IsShared(g)
    ensures var (before, after) := (SharedBook(g, ops).nextToken, SharedBook(g, ops + [op]).nextToken);
            before <= after && (op.Reserve? && op.key == g.key ==> after == before + 1)
  {
    hide BudgetRuns.Run, BudgetRuns.Steady, Earliest, Live;
    var cfg := Exactly(g.per, g.capacity);
    EverySteady(g.per, ops);
    EverySteady(g.per, ops + [op]);
    BudgetRuns.RunGoesOn(cfg, ops, op);
    TokensMoveOn(cfg, BudgetRuns.Run(cfg, ops).0, op);
  }

  lemma BehindStep(g: Setting, drift: nat, w: World, id: nat)
    requires IsShared(g) && CanMove(g, drift, w, id) && TokensBehind(g, w)
    ensures TokensBehind(g, Move(g, w, id))
  {
    hide SharedBook, TakeTurn, ReserveStep, ValidKey;
    var m := w.members[id];
    match m.phase
    case Ready =>
      var s, t := m.state.(book := SharedBook(g, w.ops)), g.parts[id].turns[m.made];
      var (calls, after) := (CallsOfNextTurn(g, w, id), NextTurn(g, w, id).0);
      TurnTokens(Exactly(g.per, g.capacity), g.parts[id].policy, s, t);
      FirstCallReserves(g, w, id);
      if calls != [] {
        SharedTokens(g, w.ops, calls[0]);
      }
    case GivingUp(release) => SharedTokens(g, w.ops, release);
    case _ =>
  }

  lemma FirstCallReserves(g: Setting, w: World, id: nat)
    requires IsShared(g) && id < |g.parts| == |w.members| && w.members[id].made < |g.parts[id].turns|
    ensures var (calls, after) := (CallsOfNextTurn(g, w, id), NextTurn(g, w, id).0);
            && |after.trace.ops| == |w.members[id].state.trace.ops| + |calls|
            && (calls != [] ==> calls[0].Reserve? && calls[0].key == g.key)
  {
    hide TakeTurn, ReserveStep, SharedBook;
    var m := w.members[id];
    var s := m.state.(book := SharedBook(g, w.ops));
    FleetMembers.TurnsArePlans(Exactly(g.per, g.capacity), g.parts[id].policy, s, g.parts[id].turns[m.made], g.key);
  }

  lemma {:induction false} AlwaysBehind(g: Setting, drift: nat, moves: seq<nat>)
    requires IsShared(g)
    ensures TokensBehind(g, Play(g, drift, moves))
    decreases |moves|
  {
    hide CanMove, Move, TokensBehind;
    if moves == [] {
      OpeningBehind(g);
    } else {
      var n := |moves| - 1;
      AlwaysBehind(g, drift, moves[..n]);
      if CanMove(g, drift, Play(g, drift, moves[..n]), moves[n]) {
        BehindStep(g, drift, Play(g, drift, moves[..n]), moves[n]);
      }
    }
  }

  lemma OpeningBehind(g: Setting)
    requires IsShared(g)
    ensures TokensBehind(g, Opening(g))
  {
  }

  /** Tokens are never handed out twice to an execution that goes on on a budget further on. */
  lemma {:induction false} TokensGrowOn(cfg: Config, p: Policy, s: State, turns: seq<Turn>, found: seq<Book>, t: Turn,
            book: Book)
    requires ValidConfig(cfg) && |found| == |turns| && TokensGrow(cfg, p, s, turns, found)
    requires var (s', progress) := RunAmongOthers(cfg, p, s, turns, found);
             progress.Running? && s'.book.nextToken <= book.nextToken
    ensures TokensGrow(cfg, p, s, turns + [t], found + [book])
    decreases |turns|
  {
    hide TakeTurn;
    if turns == [] {
      assert [t][1..] == [] && [book][1..] == [];
    } else {
      assert (turns + [t])[1..] == turns[1..] + [t] && (found + [book])[1..] == found[1..] + [book];
      TokensGrowOn(cfg, p, TakeTurn(cfg, p, s.(book := found[0]), turns[0]).0, turns[1..], found[1..], t, book);
    }
  }

  ghost predicate HasGrown(g: Setting, part: Part, m: Member)
    requires IsShared(g)
  {
    && m.made <= |part.turns| && |m.found| == m.made
    && TokensGrow(Exactly(g.per, g.capacity), part.policy, Start(part.startedAt, EMPTY_BOOK), part.turns[..m.made],
        m.found)
  }

  lemma GrownStep(g: Setting, drift: nat, w: World, id: nat)
    requires IsShared(g) && CanMove(g, drift, w, id) && TokensBehind(g, w)
    requires IsExecution(g, g.parts[id], w.members[id]) && HasGrown(g, g.parts[id], w.members[id])
    ensures HasGrown(g, g.parts[id], Move(g, w, id).members[id])
  {
    hide RunAmongOthers, TakeTurn, SharedBook, CallsOfNextTurn, TokensGrow;
    var m, part := w.members[id], g.parts[id];
    if m.phase.Ready? {
      TokensGrowOn(Exactly(g.per, g.capacity), part.policy, Start(part.startedAt, EMPTY_BOOK),
                   part.turns[..m.made], m.found, part.turns[m.made], SharedBook(g, w.ops));
      assert part.turns[..m.made] + [part.turns[m.made]] == part.turns[..m.made + 1];
    }
  }

  lemma {:induction false} AlwaysGrown(g: Setting, drift: nat, moves: seq<nat>, id: nat)
    requires IsShared(g) && id < |g.parts|
    ensures HasGrown(g, g.parts[id], Play(g, drift, moves).members[id])
    decreases |moves|
  {
    hide CanMove, IsExecution, HasGrown, TokensBehind;
    if moves == [] {
      NothingGrown(g, g.parts[id]);
    } else {
      var n := |moves| - 1;
      var before := Play(g, drift, moves[..n]);
      AlwaysGrown(g, drift, moves[..n], id);
      AlwaysBehind(g, drift, moves[..n]);
      MembersAreExecutions(g, drift, moves[..n], id);
      if CanMove(g, drift, before, moves[n]) {
        if moves[n] == id {
          GrownStep(g, drift, before, id);
        } else {
          OthersStay(g, drift, before, moves[n], id);
        }
      }
    }
  }

  lemma NothingGrown(g: Setting, part: Part)
    requires IsShared(g)
    ensures HasGrown(g, part, Member(Start(part.startedAt, EMPTY_BOOK), 0, Ready, []))
  {
    assert part.turns[..0] == [];
  }

  /** Reservation conservation on a shared budget, however others' calls come between: every execution
      holds one reservation for each completed sleep. It has slept as often as it has made attempts
      while it goes on, and once less when it has ended. */
  lemma MembersConserve(g: Setting, drift: nat, moves: seq<nat>, id: nat)
    requires IsShared(g) && id < |g.parts|
    ensures var m := Play(g, drift, moves).members[id];
            && |m.state.trace.ops| == |m.state.trace.answers|
            && |Holding(m.state, g.key)| == |m.state.trace.sleeps|
            && m.state.runtime.attemptNumber
               == |m.state.trace.sleeps| + if m.phase.Ready? || m.phase.Asleep? then 0 else 1
  {
    hide Play, RunAmongOthers, TokensGrow, TakeTurn, BudgetRuns.Outstanding;
    var part, m := g.parts[id], Play(g, drift, moves).members[id];
    MembersAreExecutions(g, drift, moves, id);
    AlwaysGrown(g, drift, moves, id);
    NewIsBalanced(part.startedAt, g.key);
    ConservedAmongOthers(Exactly(g.per, g.capacity), part.policy, Start(part.startedAt, EMPTY_BOOK),
        part.turns[..m.made], m.found, g.key);
  }

  lemma NewIsBalanced(startedAt: nat, key: string)
    ensures Balanced(Start(startedAt, EMPTY_BOOK), key, Running)
  {
  }
}
