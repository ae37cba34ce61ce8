/** Whole executions on one shared budget, interleaved at every single call to it: they are a fleet,
so the rate at which their retries start is bounded. */
module Interleaving {
  import opened Options
  import opened RollingWindow
  import opened Rounding
  import opened BudgetState
  import opened BudgetLaws
  import opened FlowState
  import opened FlowLaws
  import opened Decisions
  import FleetMembers
  import BudgetRuns
  import Fleet

  // ---------------------------------------------------------------- the world

  /** One execution: its policy, its start, and what it meets, attempt by attempt. */
  datatype Part = Part(policy: Policy, startedAt: nat, turns: seq<Turn>)

  /** An execution is about to make an attempt; or it has planned a retry and is about to give the
      reservation back; or it sleeps before its next attempt; or it has ended. */
  datatype Phase = Ready | GivingUp(release: BudgetRuns.Op) | Asleep | Over

  /** How far an execution has come: its state after the attempts it has made, and the budget that each
      of them found. */
  datatype Member = Member(state: State, made: nat, phase: Phase, found: seq<Book>)

  /** Attempt number `turn`, counted from zero, of execution `id` began at this time. */
  datatype Begun = Begun(id: nat, turn: nat, at: nat)

  /** The calls made to the budget, the executions, the retries that have begun, and the time of the
      latest of all these. */
  datatype World = World(ops: seq<BudgetRuns.Op>, members: seq<Member>, begun: seq<Begun>, clock: nat)

  datatype Setting = Setting(per: nat, capacity: nat, key: string, parts: seq<Part>)

  /** All executions use the key of one budget. */
  ghost predicate IsShared(g: Setting) {
    && 0 < g.per && 0 < g.capacity && ValidKey(g.key)
    && forall id :: 0 <= id < |g.parts| ==> g.parts[id].policy.budgetKey == Some(g.key)
  }

  ghost function Opening(g: Setting): World {
    var members := seq(|g.parts|, id requires 0 <= id < |g.parts| =>
        Member(Start(g.parts[id].startedAt, EMPTY_BOOK), 0, Ready, []));
    World([], members, [], 0)
  }

  /** The budget as all calls so far have left it. */
  ghost function SharedBook(g: Setting, ops: seq<BudgetRuns.Op>): Book
    requires IsShared(g)
  {
    EverySteady(g.per, ops);
    BudgetRuns.Run(Exactly(g.per, g.capacity), ops).0
  }

  function NewCalls(before: State, after: State): seq<BudgetRuns.Op> {
    if |before.trace.ops| <= |after.trace.ops| then after.trace.ops[|before.trace.ops|..] else []
  }

  /** The next attempt of an execution, on the shared budget as it is when the attempt asks it. */
  ghost function NextTurn(g: Setting, w: World, id: nat): (State, Progress)
    requires IsShared(g) && id < |g.parts| == |w.members| && w.members[id].made < |g.parts[id].turns|
  {
    var m := w.members[id];
    TakeTurn(Exactly(g.per, g.capacity), g.parts[id].policy, m.state.(book := SharedBook(g, w.ops)),
        g.parts[id].turns[m.made])
  }

  ghost function CallsOfNextTurn(g: Setting, w: World, id: nat): seq<BudgetRuns.Op>
    requires IsShared(g) && id < |g.parts| == |w.members| && w.members[id].made < |g.parts[id].turns|
  {
    NewCalls(w.members[id].state, NextTurn(g, w, id).0)
  }

  /** An execution may move when time does not run backwards, and wakes no earlier than its sleep is
      over, counted from the clock reading of its plan, and at most `drift` later. */
  ghost predicate CanMove(g: Setting, drift: nat, w: World, id: nat)
    requires IsShared(g)
  {
    && id < |g.parts| == |w.members|
    && var (m, turns) := (w.members[id], g.parts[id].turns);
       match m.phase
       case Ready => m.made < |turns| && (CallsOfNextTurn(g, w, id) != [] ==> w.clock <= turns[m.made].plannedAt)
       case GivingUp(release) => w.clock <= release.current
       case Asleep => (
         && 0 < m.made < |turns| && m.state.trace.sleeps != [] && w.clock <= turns[m.made].beganAt
         && var slept := m.state.trace.sleeps[|m.state.trace.sleeps| - 1].ticks;
            WokeInTime(turns[m.made - 1].plannedAt + slept, drift, turns[m.made].beganAt))
       case Over => false
  }

  predicate WokeInTime(due: nat, drift: nat, at: nat) {
    due <= at <= due + drift
  }

  /** One move of one execution: it makes an attempt up to its first call to the budget and what follows
      from the answer; or it makes the call that gives the reservation back; or it wakes, and its next
      attempt begins. The calls of others may come between any two moves. */
  ghost function Move(g: Setting, w: World, id: nat): (after: World)
    requires IsShared(g) && id < |g.parts| == |w.members|
    ensures |after.members| == |w.members|
    requires w.members[id].phase.Ready? || w.members[id].phase.Asleep? ==> w.members[id].made < |g.parts[id].turns|
  {
    var m := w.members[id];
    match m.phase
    case Ready =>
      var (s, progress) := NextTurn(g, w, id);
      var calls := CallsOfNextTurn(g, w, id);
      var phase := if |calls| >= 2 then GivingUp(calls[1]) else if progress.Running? then Asleep else Over;
      var after := Member(s, m.made + 1, phase, m.found + [SharedBook(g, w.ops)]);
      World(if calls == [] then w.ops else w.ops + [calls[0]], w.members[id := after], w.begun,
            if calls == [] then w.clock else g.parts[id].turns[m.made].plannedAt)
    case GivingUp(release) =>
      World(w.ops + [release], w.members[id := m.(phase := Over)], w.begun, release.current)
    case Asleep =>
      var at := g.parts[id].turns[m.made].beganAt;
      World(w.ops, w.members[id := m.(phase := Ready)], w.begun + [Begun(id, m.made, at)], at)
    case Over => w
  }

  /** The world after a history of moves. A move that is not possible when it comes is not made. */
  ghost function Play(g: Setting, drift: nat, moves: seq<nat>): (w: World)
    requires IsShared(g)
    ensures |w.members| == |g.parts|
  {
    if moves == [] then Opening(g)
    else
      var before := Play(g, drift, moves[..|moves| - 1]);
      var id := moves[|moves| - 1];
      if CanMove(g, drift, before, id) then Move(g, before, id) else before
  }

  // ---------------------------------------------------------------- the fleet

  /** The step of the fleet that a move is, if it is one. */
  ghost function StepOf(g: Setting, w: World, id: nat): seq<Fleet.Step>
    requires IsShared(g) && id < |g.parts| == |w.members|
    requires w.members[id].phase.Ready? || w.members[id].phase.Asleep? ==> w.members[id].made < |g.parts[id].turns|
  {
    var (m, turns) := (w.members[id], g.parts[id].turns);
    match m.phase
    case Ready =>
      var calls := CallsOfNextTurn(g, w, id);
      if calls != [] && calls[0].Reserve? && calls[0].notBefore >= calls[0].current
      then [Fleet.Plan(id, calls[0].current, calls[0].notBefore - calls[0].current)]
      else []
    case GivingUp(release) => [Fleet.Cancel(id, release.current)]
    case Asleep => [Fleet.Retry(id, turns[m.made].beganAt)]
    case Over => []
  }

  /** An execution that has planned a retry, and the fleet's record of it. */
  ghost predicate Waits(part: Part, m: Member, wait: Fleet.Waiting) {
    && 0 < m.made <= |part.turns|
    && var t := part.turns[m.made - 1];
       match m.phase
       case Asleep => (
         && m.state.trace.sleeps != [] && wait.plannedAt == t.plannedAt
         && wait.total == m.state.trace.sleeps[|m.state.trace.sleeps| - 1].ticks)
       case GivingUp(release) => release == BudgetRuns.Release(wait.reservation, t.releasedAt)
       case _ => false
  }

  predicate HasPlanned(m: Member) {
    m.phase.Asleep? || m.phase.GivingUp?
  }

  ghost predicate MemberMirrored(g: Setting, w: World, fleet: Fleet.Fleet, id: nat)
    requires |w.members| == |g.parts|
  {
    && (id in fleet.waiting <==> id < |w.members| && HasPlanned(w.members[id]))
    && (id in fleet.waiting ==> Waits(g.parts[id], w.members[id], fleet.waiting[id]))
  }

  /** The fleet has made the same calls and started the same retries at the same times, and waits for
      the same executions. */
  ghost predicate Mirrors(g: Setting, w: World, fleet: Fleet.Fleet, clock: nat) {
    && fleet.ops == w.ops && clock == w.clock && |w.members| == |g.parts|
    && |fleet.starts| == |w.begun| && (forall i :: 0 <= i < |w.begun| ==> fleet.starts[i].at == w.begun[i].at)
    && forall id :: MemberMirrored(g, w, fleet, id)
  }

  /** A change to one execution. */
  lemma OneMemberMoved(g: Setting, w: World, fleet: Fleet.Fleet, w': World, fleet': Fleet.Fleet, id: nat, after: Member)
    requires Mirrors(g, w, fleet, w.clock) && id < |w.members| && w'.members == w.members[id := after]
    requires forall other :: other != id ==>
               && (other in fleet'.waiting <==> other in fleet.waiting)
               && (other in fleet.waiting ==> fleet'.waiting[other] == fleet.waiting[other])
    requires fleet'.ops == w'.ops && MemberMirrored(g, w', fleet', id)
    requires |fleet'.starts| == |w'.begun| && forall i :: 0 <= i < |w'.begun| ==> fleet'.starts[i].at == w'.begun[i].at
    ensures Mirrors(g, w', fleet', w'.clock)
  {
    hide Waits, HasPlanned;
    forall other ensures MemberMirrored(g, w', fleet', other) {
      if other != id {
        assert MemberMirrored(g, w, fleet, other);
      }
    }
  }

  /** The step of the fleet that goes with a move, or none. */
  ghost predicate Follows(g: Setting, drift: nat, w: World, id: nat, fleet: Fleet.Fleet)
    requires IsShared(g) && CanMove(g, drift, w, id)
  {
    var steps := StepOf(g, w, id);
    if steps == [] then Mirrors(g, Move(g, w, id), fleet, w.clock)
    else
      && |steps| == 1 && Fleet.CanTake(fleet, w.clock, drift, steps[0])
      && Mirrors(g, Move(g, w, id), Fleet.Take(g.per, g.capacity, g.key, fleet, steps[0]), steps[0].now)
  }

  /** An attempt that asks the budget for nothing. */
  lemma QuietTurnFollows(g: Setting, drift: nat, w: World, id: nat, fleet: Fleet.Fleet)
    requires IsShared(g) && Mirrors(g, w, fleet, w.clock) && CanMove(g, drift, w, id) && w.members[id].phase.Ready?
    requires CallsOfNextTurn(g, w, id) == [] && !NextTurn(g, w, id).1.Running?
    ensures Follows(g, drift, w, id, fleet)
  {
    hide NextTurn, CallsOfNextTurn, SharedBook, Mirrors;
    MirroredHere(g, w, fleet, id);
    OneMemberMoved(g, w, fleet, Move(g, w, id), fleet, id, Move(g, w, id).members[id]);
  }

  lemma MirroredHere(g: Setting, w: World, fleet: Fleet.Fleet, id: nat)
    requires Mirrors(g, w, fleet, w.clock)
    ensures |w.members| == |g.parts| && MemberMirrored(g, w, fleet, id) && fleet.ops == w.ops
    ensures |fleet.starts| == |w.begun| && forall i :: 0 <= i < |w.begun| ==> fleet.starts[i].at == w.begun[i].at
  {
  }

  /** An attempt that asks for a reservation, and goes on or gives it up. */
  lemma AskingTurnFollows(g: Setting, drift: nat, w: World, id: nat, fleet: Fleet.Fleet, delay: nat, r: Reservation)
    requires IsShared(g) && Mirrors(g, w, fleet, w.clock) && CanMove(g, drift, w, id) && w.members[id].phase.Ready?
    requires var (t, calls) := (g.parts[id].turns[w.members[id].made], CallsOfNextTurn(g, w, id));
             var (s, progress) := NextTurn(g, w, id);
             && r == ReserveStep(Exactly(g.per, g.capacity), SharedBook(g, w.ops), g.key, t.plannedAt,
                 t.plannedAt + delay).1
             && calls != [] && calls[0] == BudgetRuns.Reserve(g.key, t.plannedAt, t.plannedAt + delay)
             && if |calls| >= 2 then calls[1] == BudgetRuns.Release(r, t.releasedAt)
                else
                  && progress.Running? && s.trace.sleeps != []
                  && s.trace.sleeps[|s.trace.sleeps| - 1].ticks == Fleet.TotalDelay(t.plannedAt, delay, r)
    ensures Follows(g, drift, w, id, fleet)
  {
    hide NextTurn, CallsOfNextTurn, SharedBook, Mirrors, ReserveStep, BudgetRuns.Apply, BudgetRuns.Run, ValidKey,
        Fleet.TotalDelay;
    MirroredHere(g, w, fleet, id);
    var t := g.parts[id].turns[w.members[id].made];
    var step := Fleet.Plan(id, t.plannedAt, delay);
    SharedAnswer(g, w.ops, t.plannedAt, delay);
    var (w', fleet') := (Move(g, w, id), Fleet.Take(g.per, g.capacity, g.key, fleet, step));
    assert StepOf(g, w, id) == [step];
    assert fleet'.waiting
        == fleet.waiting[id := Fleet.Waiting(t.plannedAt, Fleet.TotalDelay(t.plannedAt, delay, r), r)];
    OneMemberMoved(g, w, fleet, w', fleet', id, w'.members[id]);
  }

  lemma TurnFollows(g: Setting, drift: nat, w: World, id: nat, fleet: Fleet.Fleet)
    requires IsShared(g) && Mirrors(g, w, fleet, w.clock) && CanMove(g, drift, w, id) && w.members[id].phase.Ready?
    ensures Follows(g, drift, w, id, fleet)
  {
    hide TakeTurn, ReserveStep, SharedBook, ValidKey, Follows, Mirrors, Fleet.TotalDelay;
    var m, t := w.members[id], g.parts[id].turns[w.members[id].made];
    var cfg, s := Exactly(g.per, g.capacity), m.state.(book := SharedBook(g, w.ops));
    FleetMembers.TurnsArePlans(cfg, g.parts[id].policy, s, t, g.key);
    var (after, progress) := TakeTurn(cfg, g.parts[id].policy, s, t);
    if progress.Running? {
      assert NewCalls(m.state, after) == [BudgetRuns.Reserve(g.key, t.plannedAt, t.plannedAt + t.backoff.ticks)];
      AskingTurnFollows(g, drift, w, id, fleet, t.backoff.ticks, SlotFor(cfg, s.book, g.key, t));
    } else if after.trace.ops == s.trace.ops {
      assert NewCalls(m.state, after) == [];
      QuietTurnFollows(g, drift, w, id, fleet);
    } else {
      var r := SlotFor(cfg, s.book, g.key, t);
      var op := BudgetRuns.Reserve(g.key, t.plannedAt, t.plannedAt + t.backoff.ticks);
      assert NewCalls(m.state, after) == [op, BudgetRuns.Release(r, t.releasedAt)];
      AskingTurnFollows(g, drift, w, id, fleet, t.backoff.ticks, r);
    }
  }

  /** Giving a reservation back, or waking. */
  lemma OtherMoveFollows(g: Setting, drift: nat, w: World, id: nat, fleet: Fleet.Fleet)
    requires IsShared(g) && Mirrors(g, w, fleet, w.clock) && CanMove(g, drift, w, id) && !w.members[id].phase.Ready?
    ensures Follows(g, drift, w, id, fleet)
  {
    hide SharedBook, Mirrors, BudgetRuns.Run, ValidKey;
    MirroredHere(g, w, fleet, id);
    var step := StepOf(g, w, id)[0];
    var w', fleet' := Move(g, w, id), Fleet.Take(g.per, g.capacity, g.key, fleet, step);
    OneMemberMoved(g, w, fleet, w', fleet', id, w'.members[id]);
  }

  /** What the shared budget answers is what the fleet's budget answers. */
  lemma SharedAnswer(g: Setting, ops: seq<BudgetRuns.Op>, now: nat, delay: nat)
    requires IsShared(g)
    ensures BudgetRuns.Steady(Exact(g.per), ops)
    ensures var cfg := Exactly(g.per, g.capacity);
            BudgetRuns.Apply(cfg, BudgetRuns.Run(cfg, ops).0, BudgetRuns.Reserve(g.key, now, now + delay)).1
            == BudgetRuns.Granted(ReserveStep(cfg, SharedBook(g, ops), g.key, now, now + delay).1)
  {
    hide ReserveStep, BudgetRuns.Run;
    EverySteady(g.per, ops);
  }

  /** The steps of the fleet that go with a history of moves. */
  ghost function History(g: Setting, drift: nat, moves: seq<nat>): seq<Fleet.Step>
    requires IsShared(g)
  {
    if moves == [] then []
    else
      var before, id := Play(g, drift, moves[..|moves| - 1]), moves[|moves| - 1];
      History(g, drift, moves[..|moves| - 1]) + if CanMove(g, drift, before, id) then StepOf(g, before, id) else []
  }

  lemma OpeningMirrored(g: Setting)
    requires IsShared(g)
    ensures Mirrors(g, Opening(g), Fleet.Fleet([], map[], []), 0)
  {
  }

  /** However the executions interleave, they are a fleet. */
  lemma {:induction false} InterleavingsAreFleets(g: Setting, drift: nat, moves: seq<nat>)
    requires IsShared(g)
    ensures var steps := History(g, drift, moves);
            && Fleet.Possible(g.per, g.capacity, g.key, drift, steps)
            && Mirrors(g, Play(g, drift, moves), Fleet.Run(g.per, g.capacity, g.key, steps), Fleet.Clock(steps))
    decreases |moves|
  {
    hide CanMove, Move, StepOf, Mirrors, Fleet.Possible, Fleet.Run, Fleet.Take, Fleet.CanTake;
    if moves == [] {
      OpeningMirrored(g);
      Fleet.NoSteps(g.per, g.capacity, g.key, drift);
    } else {
      var n := |moves| - 1;
      InterleavingsAreFleets(g, drift, moves[..n]);
      var before, id, steps := Play(g, drift, moves[..n]), moves[n], History(g, drift, moves[..n]);
      var fleet := Fleet.Run(g.per, g.capacity, g.key, steps);
      assert steps + [] == steps;
      if CanMove(g, drift, before, id) {
        MirroredClock(g, before, fleet, Fleet.Clock(steps));
        MoveFollows(g, drift, before, id, fleet);
        MovesHaveTurns(g, drift, before, id);
        var next := StepOf(g, before, id);
        if next != [] {
          assert next == [next[0]];
          Fleet.OneMoreStep(g.per, g.capacity, g.key, drift, steps, next[0]);
        }
      }
    }
  }

  lemma MovesHaveTurns(g: Setting, drift: nat, w: World, id: nat)
    requires IsShared(g) && CanMove(g, drift, w, id)
    ensures id < |g.parts| == |w.members|
    ensures w.members[id].phase.Ready? || w.members[id].phase.Asleep? ==> w.members[id].made < |g.parts[id].turns|
  {
  }

  lemma MirroredClock(g: Setting, w: World, fleet: Fleet.Fleet, clock: nat)
    requires Mirrors(g, w, fleet, clock)
    ensures clock == w.clock
  {
  }

  lemma MoveFollows(g: Setting, drift: nat, w: World, id: nat, fleet: Fleet.Fleet)
    requires IsShared(g) && Mirrors(g, w, fleet, w.clock) && CanMove(g, drift, w, id)
    ensures Follows(g, drift, w, id, fleet)
  {
    hide Mirrors, Follows;
    if w.members[id].phase.Ready? {
      TurnFollows(g, drift, w, id, fleet);
    } else {
      OtherMoveFollows(g, drift, w, id, fleet);
    }
  }

  // ---------------------------------------------------------------- what has begun

  /** How many attempts of an execution have begun after its first. */
  function Retries(m: Member): nat {
    if m.phase.Ready? then m.made else if m.made > 0 then m.made - 1 else 0
  }

  /** The times at which retries have begun are those of attempts 2, 3, ... of the executions, as far as
      each has come, and each of them once. */
  ghost predicate BegunAreRetries(g: Setting, w: World) {
    && |w.members| == |g.parts|
    && (forall b :: b in w.begun ==>
          b.id < |g.parts| && b.turn < |g.parts[b.id].turns| && b.at == g.parts[b.id].turns[b.turn].beganAt)
    && (forall id: nat, turn: nat :: IsBegun(w, id, turn) <==> id < |w.members| && 1 <= turn <= Retries(w.members[id]))
    && (forall i, j :: 0 <= i < j < |w.begun| ==>
        !(w.begun[i].id == w.begun[j].id && w.begun[i].turn == w.begun[j].turn))
  }

  ghost predicate IsBegun(w: World, id: nat, turn: nat) {
    exists b :: b in w.begun && b.id == id && b.turn == turn
  }

  lemma BegunStep(g: Setting, drift: nat, w: World, id: nat)
    requires IsShared(g) && BegunAreRetries(g, w) && CanMove(g, drift, w, id)
    ensures BegunAreRetries(g, Move(g, w, id))
  {
    hide NextTurn, CallsOfNextTurn, SharedBook;
    var w' := Move(g, w, id);
    if w.members[id].phase.Asleep? {
      var b := w'.begun[|w.begun|];
      assert w'.begun == w.begun + [b];
      forall i: nat, turn: nat ensures IsBegun(w', i, turn) <==> IsBegun(w, i, turn) || (i == b.id && turn == b.turn) {
        assert forall x :: x in w'.begun <==> x in w.begun || x == b;
      }
      assert !IsBegun(w, b.id, b.turn);
      forall i | 0 <= i < |w.begun| ensures !(w.begun[i].id == b.id && w.begun[i].turn == b.turn) {
        assert w.begun[i] in w.begun;
      }
    } else {
      assert w'.begun == w.begun;
      forall i: nat, turn: nat ensures IsBegun(w', i, turn) <==> IsBegun(w, i, turn) {
      }
    }
  }

  lemma {:induction false} RetriesBegin(g: Setting, drift: nat, moves: seq<nat>)
    requires IsShared(g)
    ensures BegunAreRetries(g, Play(g, drift, moves))
    decreases |moves|
  {
    hide CanMove, Move, BegunAreRetries;
    if moves == [] {
      NoneBegun(g);
    } else {
      var n := |moves| - 1;
      RetriesBegin(g, drift, moves[..n]);
      if CanMove(g, drift, Play(g, drift, moves[..n]), moves[n]) {
        BegunStep(g, drift, Play(g, drift, moves[..n]), moves[n]);
      }
    }
  }

  lemma NoneBegun(g: Setting)
    requires IsShared(g)
    ensures BegunAreRetries(g, Opening(g))
  {
    assert forall id: nat, turn: nat :: !IsBegun(Opening(g), id, turn);
  }

  // ---------------------------------------------------------------- the executions are real

  /** The member has done exactly what its execution does when others use the budget in between. */
  ghost predicate IsExecution(g: Setting, part: Part, m: Member)
    requires IsShared(g)
  {
    && m.made <= |part.turns| && |m.found| == m.made
    && var cfg := Exactly(g.per, g.capacity);
       var (s, progress) := RunAmongOthers(cfg, part.policy, Start(part.startedAt, EMPTY_BOOK), part.turns[..m.made],
           m.found);
       s == m.state && (progress.Running? <==> m.phase.Ready? || m.phase.Asleep?)
  }

  /** One attempt more of an execution that goes on. */
  lemma {:induction false} RunAmongOthersGoesOn(cfg: Config, p: Policy, s: State, turns: seq<Turn>, found: seq<Book>,
            t: Turn, book: Book)
    requires ValidConfig(cfg) && |found| == |turns| && RunAmongOthers(cfg, p, s, turns, found).1.Running?
    ensures RunAmongOthers(cfg, p, s, turns + [t], found + [book])
         == TakeTurn(cfg, p, RunAmongOthers(cfg, p, s, turns, found).0.(book := book), t)
    decreases |turns|
  {
    hide TakeTurn;
    if turns == [] {
      assert [t][1..] == [] && [book][1..] == [];
    } else {
      assert (turns + [t])[1..] == turns[1..] + [t] && (found + [book])[1..] == found[1..] + [book];
      RunAmongOthersGoesOn(cfg, p, TakeTurn(cfg, p, s.(book := found[0]), turns[0]).0, turns[1..], found[1..], t, book);
    }
  }

  /** A turn that calls the budget twice has given its reservation back: it does not go on. */
  lemma TwoCallsEnd(g: Setting, w: World, id: nat)
    requires IsShared(g) && id < |g.parts| == |w.members| && w.members[id].made < |g.parts[id].turns|
    ensures NextTurn(g, w, id).1.Running? ==> |CallsOfNextTurn(g, w, id)| == 1
  {
    hide TakeTurn, ReserveStep, SharedBook;
    var m := w.members[id];
    var s := m.state.(book := SharedBook(g, w.ops));
    FleetMembers.TurnsArePlans(Exactly(g.per, g.capacity), g.parts[id].policy, s, g.parts[id].turns[m.made], g.key);
  }

  lemma ExecutionStep(g: Setting, drift: nat, w: World, id: nat)
    requires IsShared(g) && CanMove(g, drift, w, id) && IsExecution(g, g.parts[id], w.members[id])
    ensures IsExecution(g, g.parts[id], Move(g, w, id).members[id])
  {
    hide RunAmongOthers, TakeTurn, SharedBook, CallsOfNextTurn;
    var m, part := w.members[id], g.parts[id];
    if m.phase.Ready? {
      TwoCallsEnd(g, w, id);
      RunAmongOthersGoesOn(Exactly(g.per, g.capacity), part.policy, Start(part.startedAt, EMPTY_BOOK),
                           part.turns[..m.made], m.found, part.turns[m.made], SharedBook(g, w.ops));
      assert part.turns[..m.made] + [part.turns[m.made]] == part.turns[..m.made + 1];
    }
  }

  lemma {:induction false} MembersAreExecutions(g: Setting, drift: nat, moves: seq<nat>, id: nat)
    requires IsShared(g) && id < |g.parts|
    ensures IsExecution(g, g.parts[id], Play(g, drift, moves).members[id])
    decreases |moves|
  {
    hide CanMove, IsExecution;
    if moves == [] {
      NewExecution(g, g.parts[id]);
    } else {
      var n := |moves| - 1;
      MembersAreExecutions(g, drift, moves[..n], id);
      var before := Play(g, drift, moves[..n]);
      if CanMove(g, drift, before, moves[n]) {
        if moves[n] == id {
          ExecutionStep(g, drift, before, id);
        } else {
          OthersStay(g, drift, before, moves[n], id);
        }
      }
    }
  }

  lemma OthersStay(g: Setting, drift: nat, w: World, id: nat, other: nat)
    requires IsShared(g) && CanMove(g, drift, w, id) && other < |w.members| && other != id
    ensures Move(g, w, id).members[other] == w.members[other]
  {
    hide NextTurn, CallsOfNextTurn, SharedBook;
  }

  lemma NewExecution(g: Setting, part: Part)
    requires IsShared(g)
    ensures IsExecution(g, part, Member(Start(part.startedAt, EMPTY_BOOK), 0, Ready, []))
  {
    assert part.turns[..0] == [];
  }

  // ---------------------------------------------------------------- the rate

  function BeginTimes(begun: seq<Begun>): (ts: seq<nat>)
    ensures |ts| == |begun| && forall i :: 0 <= i < |begun| ==> ts[i] == begun[i].at
  {
    seq(|begun|, i requires 0 <= i < |begun| => begun[i].at)
  }

  /** The rate limit of whole executions: interleave any number of them at every call to the shared
      budget, wake them at most `drift` late, and no window of length `per` sees more than `capacity`
      retries begin for each period that the window and the drift reach into. The times counted are
      those at which attempts 2, 3, ... of the executions begin, each once. */
  lemma RetriesKeepRate(g: Setting, drift: nat, moves: seq<nat>, n: nat, w: int)
    requires IsShared(g) && g.per + drift <= n * g.per
    ensures var world := Play(g, drift, moves);
            BegunAreRetries(g, world) && Count(Exact(g.per), BeginTimes(world.begun), w) <= n * g.capacity
  {
    hide IsShared, Play, History, BegunAreRetries, Fleet.Possible, Fleet.Run, Count;
    RetriesBegin(g, drift, moves);
    InterleavingsAreFleets(g, drift, moves);
    assert 0 < g.per && 0 < g.capacity && ValidKey(g.key) by {
      SharedSetting(g);
    }
    var starts := Fleet.Run(g.per, g.capacity, g.key, History(g, drift, moves)).starts;
    assert BeginTimes(Play(g, drift, moves).begun) == Fleet.StartTimes(starts);
    Fleet.FleetKeepsRate(g.per, g.capacity, g.key, drift, History(g, drift, moves), n, w);
  }

  lemma SharedSetting(g: Setting)
    requires IsShared(g)
    ensures 0 < g.per && 0 < g.capacity && ValidKey(g.key)
  {
  }

  /** With exact sleepers and no time between plan and sleep, the budget's own rate is kept. */
  lemma RetriesKeepExactRate(g: Setting, moves: seq<nat>)
    requires IsShared(g)
    ensures WithinCapacity(Exact(g.per), g.capacity, BeginTimes(Play(g, 0, moves).begun))
  {
    hide IsShared, Play, BegunAreRetries, Count;
    forall w ensures Count(Exact(g.per), BeginTimes(Play(g, 0, moves).begun), w) <= g.capacity {
      RetriesKeepRate(g, 0, moves, 1, w);
    }
  }
}
