/** How sharp the rate limit is: whole executions that reach its bound. */
module Rates {
  import opened Options
  import opened Stops
  import opened RollingWindow
  import opened Rounding
  import opened BudgetState
  import opened BudgetLaws
  import opened Bursts
  import opened FlowState
  import opened Interleaving
  import BudgetRuns
  import Fleet

  // ---------------------------------------------------------------- slots

  /** When execution `i` plans its retry: full batches, one period after the other. */
  function Slot(per: nat, capacity: nat, i: nat): nat
    requires 0 < capacity
  {
    BatchOf(i, capacity) * per
  }

  lemma TimesRise(a: int, b: int, x: nat)
    ensures a <= b ==> a * x <= b * x
  {
    assert a <= b ==> (b - a) * x >= 0;
  }

  lemma SlotsRise(per: nat, capacity: nat, i: nat, j: nat)
    requires 0 < capacity && i <= j
    ensures Slot(per, capacity, i) <= Slot(per, capacity, j)
    decreases j - i
  {
    if i < j {
      SlotsRise(per, capacity, i, j - 1);
      NextQuotient(j - 1, capacity);
      TimesRise(BatchOf(j - 1, capacity), BatchOf(j, capacity), per);
    }
  }

  /** The first `n` batches have their slots up to that of the last of them, and batch `n` has it one period later. */
  lemma SlotsOfBatches(per: nat, capacity: nat, n: nat, i: nat)
    requires 0 < capacity
    ensures i < n * capacity ==> Slot(per, capacity, i) <= (n - 1) * per
    ensures n * capacity <= i < (n + 1) * capacity ==> Slot(per, capacity, i) == n * per
  {
    var q := BatchOf(i, capacity);
    assert i == q * capacity + i % capacity;
    if i < n * capacity {
      TimesRise(n, q, capacity);
      TimesRise(q, n - 1, per);
    } else if i < (n + 1) * capacity {
      assert (n + 1) * capacity == n * capacity + capacity;
      DivisionIsUnique(i, capacity, n, i - n * capacity);
    }
  }

  // ---------------------------------------------------------------- what the budget grants

  /** The calls of the first `n` executions: each asks for a slot at once. */
  function Asks(per: nat, capacity: nat, key: string, n: nat): (ops: seq<BudgetRuns.Op>)
    requires 0 < capacity
    ensures |ops| == n
    ensures forall i :: 0 <= i < n ==> ops[i] == BudgetRuns.Reserve(key, Slot(per, capacity, i), Slot(per, capacity, i))
  {
    if n == 0 then []
    else
      var slot := Slot(per, capacity, n - 1);
      Asks(per, capacity, key, n - 1) + [BudgetRuns.Reserve(key, slot, slot)]
  }

  /** The archive grants each its slot. */
  lemma NextAsk(per: nat, capacity: nat, key: string, archive: BudgetRuns.Archive, n: nat)
    requires 0 < per && 0 < capacity && ValidKey(key)
    requires Sound(Exact(per)) && Times(Lookup(archive.table, key)) == Burst(Exact(per), capacity, 0, n)
    ensures var slot := Slot(per, capacity, n);
            var (after, answer) := BudgetRuns.Consult(Exactly(per, capacity), archive,
                BudgetRuns.Reserve(key, slot, slot));
            && IsGrantedAt(answer, slot)
            && Times(Lookup(after.table, key)) == Burst(Exact(per), capacity, 0, n + 1)
  {
    hide BatchStart, Burst, ValidKey, LegalSlot;
    ExactBatchStart(per, 0, BatchOf(n, capacity));
    NextBatchIsLegal(Exact(per), capacity, 0, n);
    BurstGrows(Exact(per), capacity, 0, n);
    var slot, all := Slot(per, capacity, n), Lookup(archive.table, key);
    var r := Reservation(archive.nextToken, key, slot);
    assert Times(all + [r]) == Times(all) + [slot];
  }

  lemma {:induction false} ArchiveOfAsks(per: nat, capacity: nat, key: string, n: nat)
    requires 0 < per && 0 < capacity && ValidKey(key)
    ensures BudgetRuns.Steady(Exact(per), Asks(per, capacity, key, n))
    ensures var archive := BudgetRuns.Recall(Exactly(per, capacity), Asks(per, capacity, key, n)).0;
            Sound(Exact(per)) && Times(Lookup(archive.table, key)) == Burst(Exact(per), capacity, 0, n)
  {
    hide BudgetRuns.Consult, Slot, ValidKey, Burst, BudgetRuns.Recall, Lookup;
    var cfg := Exactly(per, capacity);
    EverySteady(per, Asks(per, capacity, key, n));
    if n == 0 {
      NothingAsked(cfg, key);
    } else {
      ArchiveOfAsks(per, capacity, key, n - 1);
      var most, slot := Asks(per, capacity, key, n - 1), Slot(per, capacity, n - 1);
      BudgetRuns.RecallExtended(cfg, most, BudgetRuns.Reserve(key, slot, slot));
      NextAsk(per, capacity, key, BudgetRuns.Recall(cfg, most).0, n - 1);
    }
  }

  lemma NothingAsked(cfg: Config, key: string)
    requires ValidConfig(cfg)
    ensures Times(Lookup(BudgetRuns.Recall(cfg, []).0.table, key)) == Burst(cfg.ar, cfg.capacity, 0, 0)
  {
    assert Times([]) == [];
  }

  /** The budget grants each execution its slot, since time does not run backwards. */
  lemma AskIsGranted(per: nat, capacity: nat, key: string, n: nat)
    requires 0 < per && 0 < capacity && ValidKey(key)
    ensures var slot, ops := Slot(per, capacity, n), Asks(per, capacity, key, n);
            ReserveStep(Exactly(per, capacity), RunOf(per, capacity, ops).0, key, slot, slot).1.scheduledAt == slot
  {
    hide BudgetRuns.Run, BudgetRuns.Consult, BudgetRuns.Recall, Slot, ValidKey, ReserveStep, Burst, Lookup;
    var cfg, ops, all := Exactly(per, capacity), Asks(per, capacity, key, n), Asks(per, capacity, key, n + 1);
    EverySteady(per, ops);
    EverySteady(per, all);
    forall i, j | 0 <= i < j < |all| ensures BudgetRuns.Readings(all)[i] <= BudgetRuns.Readings(all)[j] {
      SlotsRise(per, capacity, i, j);
    }
    BudgetRuns.NonDecreasingHasNoPeak(cfg.ar, BudgetRuns.Readings(all));
    assert all[..n] == ops;
    AnswerAt(cfg, all, n);
    ArchiveOfAsks(per, capacity, key, n);
    NextAsk(per, capacity, key, BudgetRuns.Recall(cfg, ops).0, n);
    BudgetRuns.RunGoesOn(cfg, ops, all[n]);
    assert ops + [all[n]] == all;
  }

  // ---------------------------------------------------------------- executions that fill a window

  /** An attempt that fails at once and asks for another without delay, planned at once. */
  function FailingTurn(beganAt: nat, at: nat): Turn {
    Turn(Fine, beganAt, Threw(Raised(0, true, false, None, None, false)), WantsRetry, beganAt, Fine, Seconds(0), at,
         at, Fine, at, at, at, Fine, Fine)
  }

  /** Execution `i` of a convoy: it plans its retry at its slot and begins it at `wakes(i)`. */
  function Rider(per: nat, capacity: nat, key: string, wakes: nat -> nat, i: nat): Part
    requires 0 < capacity
  {
    Part(Policy(Forever, Some(key), None, false, None, None, true, true), 0,
         [FailingTurn(0, Slot(per, capacity, i)), FailingTurn(wakes(i), wakes(i))])
  }

  ghost function Convoy(per: nat, capacity: nat, key: string, wakes: nat -> nat, size: nat): (g: Setting)
    requires 0 < per && 0 < capacity && ValidKey(key)
    ensures IsShared(g)
  {
    Setting(per, capacity, key, seq(size, i requires 0 <= i < size => Rider(per, capacity, key, wakes, i)))
  }

  ghost predicate IsAsleep(m: Member) {
    m.phase.Asleep? && m.made == 1 && m.state.trace.sleeps != []
        && m.state.trace.sleeps[|m.state.trace.sleeps| - 1].ticks == 0
  }

  /** The first `woken` executions have begun their retries, those up to `planned` sleep, and the others
      have not begun at all. */
  ghost predicate Riding(per: nat, capacity: nat, key: string, wakes: nat -> nat, w: World, woken: nat, planned: nat)
    requires 0 < capacity
  {
    && w.ops == Asks(per, capacity, key, planned) && woken <= planned <= |w.members|
    && (forall i :: woken <= i < planned ==> IsAsleep(w.members[i]))
    && (forall i :: planned <= i < |w.members| ==> w.members[i] == Member(Start(0, EMPTY_BOOK), 0, Ready, []))
    && |w.begun| == woken && forall i :: 0 <= i < woken ==> w.begun[i].at == wakes(i)
  }

  /** A rider's first turn on a budget that grants its slot. */
  lemma RiderPlans(cfg: Config, per: nat, capacity: nat, key: string, wakes: nat -> nat, i: nat, book: Book)
    requires ValidConfig(cfg) && 0 < capacity
    requires var slot := Slot(per, capacity, i); ReserveStep(cfg, book, key, slot, slot).1.scheduledAt == slot
    ensures var (part, slot) := (Rider(per, capacity, key, wakes, i), Slot(per, capacity, i));
            var (s, progress) := TakeTurn(cfg, part.policy, Start(0, EMPTY_BOOK).(book := book), part.turns[0]);
            && progress.Running? && s.trace.ops == [BudgetRuns.Reserve(key, slot, slot)]
            && s.trace.sleeps == [Sleep(slot, 0)]
  {
    hide ReserveStep, ReleaseStep, ResultOf, Recorded, Slot;
  }

  lemma PlanMove(per: nat, capacity: nat, key: string, wakes: nat -> nat, size: nat, drift: nat, w: World, woken: nat,
            planned: nat)
    requires 0 < per && 0 < capacity && ValidKey(key) && planned < size == |w.members|
    requires Riding(per, capacity, key, wakes, w, woken, planned) && w.clock <= Slot(per, capacity, planned)
    ensures var g := Convoy(per, capacity, key, wakes, size);
            && CanMove(g, drift, w, planned)
            && Riding(per, capacity, key, wakes, Move(g, w, planned), woken, planned + 1)
            && Move(g, w, planned).clock == Slot(per, capacity, planned)
  {
    hide TakeTurn, Slot, ValidKey, ReserveStep, BudgetRuns.Run;
    var g := Convoy(per, capacity, key, wakes, size);
    var slot := Slot(per, capacity, planned);
    AskIsGranted(per, capacity, key, planned);
    assert SharedBook(g, w.ops) == RunOf(per, capacity, w.ops).0;
    RiderPlans(Exactly(per, capacity), per, capacity, key, wakes, planned, SharedBook(g, w.ops));
    assert CallsOfNextTurn(g, w, planned) == [BudgetRuns.Reserve(key, slot, slot)];
  }

  lemma WakeMove(per: nat, capacity: nat, key: string, wakes: nat -> nat, size: nat, drift: nat, w: World, woken: nat,
            planned: nat)
    requires 0 < per && 0 < capacity && ValidKey(key) && woken < planned && size == |w.members|
    requires Riding(per, capacity, key, wakes, w, woken, planned)
    requires w.clock <= wakes(woken) && WokeInTime(Slot(per, capacity, woken), drift, wakes(woken))
    ensures var g := Convoy(per, capacity, key, wakes, size);
            && CanMove(g, drift, w, woken)
            && Riding(per, capacity, key, wakes, Move(g, w, woken), woken + 1, planned)
            && Move(g, w, woken).clock == wakes(woken)
  {
    hide TakeTurn, Slot, ValidKey, SharedBook, CallsOfNextTurn, NextTurn, Asks, WokeInTime;
  }

  lemma Moved(g: Setting, drift: nat, moves: seq<nat>, id: nat)
    requires IsShared(g) && CanMove(g, drift, Play(g, drift, moves), id)
    ensures Play(g, drift, moves + [id]) == Move(g, Play(g, drift, moves), id)
  {
    assert (moves + [id])[..|moves|] == moves;
  }

  /** When the executions of `n` batches wake: all but the last batch as late as they may, at the first
      time of the window that ends when the last batch has its slots. */
  function WakesLate(per: nat, capacity: nat, n: nat): nat -> nat
    requires 0 < n
  {
    var (first, late, last) := ((n - 1) * capacity, Late(per, n), (n - 1) * per);
    i => if i < first then late else last
  }

  function Late(per: nat, n: nat): nat
    requires 0 < n
  {
    if n == 1 then 0 else (n - 2) * per + 1
  }

  lemma LateIsInWindow(per: nat, drift: nat, n: nat)
    requires 0 < n && 0 < per && (n - 1) * per < per + drift
    ensures (n - 1) * per - per < Late(per, n) <= (n - 1) * per && (n > 1 ==> (n - 2) * per < Late(per, n) <= drift)
  {
    if n > 1 {
      assert (n - 1) * per == (n - 2) * per + per;
    } else {
      assert (n - 1) * per == 0;
    }
  }

  lemma LateWakes(per: nat, capacity: nat, drift: nat, n: nat, i: nat)
    requires 0 < n && 0 < capacity && 0 < per && (n - 1) * per < per + drift && i < n * capacity
    ensures var (slot, wake) := (Slot(per, capacity, i), WakesLate(per, capacity, n)(i));
            && WokeInTime(slot, drift, wake) && (n - 1) * per - per < wake <= (n - 1) * per
            && (i < (n - 1) * capacity ==> slot <= Late(per, n) == wake)
            && (i >= (n - 1) * capacity ==> slot == wake == (n - 1) * per)
  {
    hide Slot, Late;
    LateIsInWindow(per, drift, n);
    SlotsOfBatches(per, capacity, n - 1, i);
    if n == 1 {
      assert (n - 1) * capacity == 0;
    }
  }

  /** The bound is attained by whole executions: for every number `n` of periods that the window and the
      drift reach into, `n` full batches of retries can begin in one window. For the least `n` that
      RetriesKeepRate admits, this is its bound. */
  lemma RateIsAttained(per: nat, capacity: nat, key: string, drift: nat, n: nat) returns (g: Setting, moves: seq<nat>)
    requires 0 < per && 0 < capacity && ValidKey(key) && 0 < n && (n - 1) * per < per + drift
    ensures IsShared(g) && g.per == per && g.capacity == capacity && g.key == key
    ensures Count(Exact(per), BeginTimes(Play(g, drift, moves).begun), (n - 1) * per) == n * capacity
  {
    hide IsShared, Play, Riding, Slot, Count, ValidKey, WakesLate, Late, WokeInTime;
    var first, size, last, wakes := (n - 1) * capacity, n * capacity, (n - 1) * per, WakesLate(per, capacity, n);
    assert n * capacity == first + capacity;
    g := Convoy(per, capacity, key, wakes, size);
    forall i | 0 <= i < size
      ensures WokeInTime(Slot(per, capacity, i), drift, wakes(i)) && last - per < wakes(i) <= last
      ensures i < first ==> Slot(per, capacity, i) <= Late(per, n) == wakes(i)
      ensures i >= first ==> Slot(per, capacity, i) == wakes(i) == last
    {
      LateWakes(per, capacity, drift, n, i);
    }
    LateIsInWindow(per, drift, n);
    moves := PlanMany(per, capacity, key, wakes, size, drift, first, Late(per, n));
    moves := WakeMany(per, capacity, key, wakes, size, drift, moves, first, Late(per, n));
    moves := RideMany(per, capacity, key, wakes, size, drift, moves, first, last);
    var begun := Play(g, drift, moves).begun;
    AllHaveBegun(per, capacity, key, wakes, Play(g, drift, moves), size);
    AllInWindow(per, BeginTimes(begun), last);
  }

  lemma PlanMany(per: nat, capacity: nat, key: string, wakes: nat -> nat, size: nat, drift: nat, many: nat, late: nat)
    returns (moves: seq<nat>)
    requires 0 < per && 0 < capacity && ValidKey(key) && many <= size
    requires forall i :: 0 <= i < many ==> Slot(per, capacity, i) <= late
    ensures var w := Play(Convoy(per, capacity, key, wakes, size), drift, moves);
            Riding(per, capacity, key, wakes, w, 0, many) && w.clock <= late
  {
    hide Play, Riding, Slot, CanMove, Move, ValidKey;
    var g := Convoy(per, capacity, key, wakes, size);
    moves := [];
    RidersStart(per, capacity, key, wakes, size, drift);
    for i := 0 to many
      invariant Riding(per, capacity, key, wakes, Play(g, drift, moves), 0, i)
      invariant Play(g, drift, moves).clock <= if i == 0 then 0 else Slot(per, capacity, i - 1)
    {
      if i > 0 {
        SlotsRise(per, capacity, i - 1, i);
      }
      PlanMove(per, capacity, key, wakes, size, drift, Play(g, drift, moves), 0, i);
      Moved(g, drift, moves, i);
      moves := moves + [i];
    }
  }

  lemma WakeMany(per: nat, capacity: nat, key: string, wakes: nat -> nat, size: nat, drift: nat, before: seq<nat>,
            many: nat, late: nat)
    returns (moves: seq<nat>)
    requires 0 < per && 0 < capacity && ValidKey(key)
    requires var w := Play(Convoy(per, capacity, key, wakes, size), drift, before);
             Riding(per, capacity, key, wakes, w, 0, many) && w.clock <= late
    requires forall i :: 0 <= i < many ==> wakes(i) == late && WokeInTime(Slot(per, capacity, i), drift, late)
    ensures var w := Play(Convoy(per, capacity, key, wakes, size), drift, moves);
            Riding(per, capacity, key, wakes, w, many, many) && w.clock <= late
  {
    hide Play, Riding, Slot, CanMove, Move, ValidKey, WokeInTime;
    var g := Convoy(per, capacity, key, wakes, size);
    moves := before;
    for i := 0 to many
      invariant Riding(per, capacity, key, wakes, Play(g, drift, moves), i, many)
      invariant Play(g, drift, moves).clock <= late
    {
      WakeMove(per, capacity, key, wakes, size, drift, Play(g, drift, moves), i, many);
      Moved(g, drift, moves, i);
      moves := moves + [i];
    }
  }

  lemma RideMany(per: nat, capacity: nat, key: string, wakes: nat -> nat, size: nat, drift: nat, before: seq<nat>,
            first: nat, last: nat)
    returns (moves: seq<nat>)
    requires 0 < per && 0 < capacity && ValidKey(key) && first <= size
    requires var w := Play(Convoy(per, capacity, key, wakes, size), drift, before);
             Riding(per, capacity, key, wakes, w, first, first) && w.clock <= last
    requires forall i :: first <= i < size ==>
        wakes(i) == Slot(per, capacity, i) == last && WokeInTime(last, drift, last)
    ensures var w := Play(Convoy(per, capacity, key, wakes, size), drift, moves);
            Riding(per, capacity, key, wakes, w, size, size)
  {
    hide Play, Riding, Slot, CanMove, Move, ValidKey, WokeInTime;
    var g := Convoy(per, capacity, key, wakes, size);
    moves := before;
    for i := first to size
      invariant Riding(per, capacity, key, wakes, Play(g, drift, moves), i, i)
      invariant Play(g, drift, moves).clock <= last
    {
      PlanMove(per, capacity, key, wakes, size, drift, Play(g, drift, moves), i, i);
      Moved(g, drift, moves, i);
      moves := moves + [i];
      WakeMove(per, capacity, key, wakes, size, drift, Play(g, drift, moves), i, i + 1);
      Moved(g, drift, moves, i);
      moves := moves + [i];
    }
  }

  lemma RidersStart(per: nat, capacity: nat, key: string, wakes: nat -> nat, size: nat, drift: nat)
    requires 0 < per && 0 < capacity && ValidKey(key)
    ensures var w := Play(Convoy(per, capacity, key, wakes, size), drift, []);
            Riding(per, capacity, key, wakes, w, 0, 0) && w.clock == 0
  {
  }

  lemma AllHaveBegun(per: nat, capacity: nat, key: string, wakes: nat -> nat, w: World, size: nat)
    requires 0 < capacity && Riding(per, capacity, key, wakes, w, size, size)
    ensures |w.begun| == size && forall j :: 0 <= j < size ==> BeginTimes(w.begun)[j] == wakes(j)
  {
  }

  /** Sleeping may not drift at all: an exact budget bounds the rate at which retries begin, over all
      interleavings of all executions on it, exactly when every sleep ends when its plan says. */
  lemma RateIffNoDrift(per: nat, capacity: nat, key: string, drift: nat)
    requires 0 < per && 0 < capacity && ValidKey(key)
    ensures drift == 0
       <==> forall g: Setting, moves :: IsShared(g) && g.per == per && g.capacity == capacity && g.key == key ==>
              WithinCapacity(Exact(per), capacity, BeginTimes(Play(g, drift, moves).begun))
  {
    hide IsShared, Play, Count, ValidKey;
    if drift == 0 {
      forall g: Setting, moves | IsShared(g) && g.per == per && g.capacity == capacity && g.key == key
        ensures WithinCapacity(Exact(per), capacity, BeginTimes(Play(g, drift, moves).begun))
      {
        RetriesKeepExactRate(g, moves);
      }
    } else {
      var g, moves := RateIsAttained(per, capacity, key, drift, 2);
      assert !WithinCapacity(Exact(per), capacity, BeginTimes(Play(g, drift, moves).begun));
    }
  }

  /** The same of planned retries alone. */
  lemma FleetRateIsAttained(per: nat, capacity: nat, key: string, drift: nat, n: nat) returns (steps: seq<Fleet.Step>)
    requires 0 < per && 0 < capacity && ValidKey(key) && 0 < n && (n - 1) * per < per + drift
    ensures Fleet.Possible(per, capacity, key, drift, steps)
    ensures Count(Exact(per), Fleet.StartTimes(Fleet.Run(per, capacity, key, steps).starts), (n - 1) * per)
        == n * capacity
  {
    hide IsShared, Play, History, Fleet.Possible, Fleet.Run, Count, ValidKey;
    var g, moves := RateIsAttained(per, capacity, key, drift, n);
    steps := History(g, drift, moves);
    InterleavingsAreFleets(g, drift, moves);
    assert BeginTimes(Play(g, drift, moves).begun) == Fleet.StartTimes(Fleet.Run(per, capacity, key, steps).starts);
  }

  lemma FleetRateIffNoDrift(per: nat, capacity: nat, key: string, drift: nat)
    requires 0 < per && 0 < capacity && ValidKey(key)
    ensures drift == 0
       <==> forall steps :: Fleet.Possible(per, capacity, key, drift, steps) ==>
              WithinCapacity(Exact(per), capacity, Fleet.StartTimes(Fleet.Run(per, capacity, key, steps).starts))
  {
    hide Fleet.Possible, Fleet.Run, Count, ValidKey;
    if drift == 0 {
      forall steps | Fleet.Possible(per, capacity, key, drift, steps)
        ensures WithinCapacity(Exact(per), capacity, Fleet.StartTimes(Fleet.Run(per, capacity, key, steps).starts))
      {
        Fleet.FleetWithoutDrift(per, capacity, key, steps);
      }
    } else {
      var steps := FleetRateIsAttained(per, capacity, key, drift, 2);
      assert !WithinCapacity(Exact(per), capacity, Fleet.StartTimes(Fleet.Run(per, capacity, key, steps).starts));
    }
  }
}
