/** Many executions sharing one budget: what the reservations guarantee about when retries start. */
module Fleet {
  import opened RollingWindow
  import opened Rounding
  import opened BudgetState
  import opened BudgetRuns
  import opened BudgetLaws

  // ---------------------------------------------------------------- the fleet

  /** An execution that has planned a retry: when it planned it and how long it is to sleep. */
  datatype Waiting = Waiting(plannedAt: nat, total: nat, reservation: Reservation)

  datatype Start = Start(reservation: Reservation, at: nat)

  /** One step of one execution: it plans a retry `delay` from now, gives a planned retry up, or
      wakes and starts it. */
  datatype Step = Plan(id: nat, now: nat, delay: nat) | Cancel(id: nat, now: nat) | Retry(id: nat, now: nat)

  /** The calls made to the budget, the executions that sleep, and the retries that have started. */
  datatype Fleet = Fleet(ops: seq<Op>, waiting: map<nat, Waiting>, starts: seq<Start>)

  /** A step may be taken when time does not run backwards, an execution plans only when it is not
      asleep already, and a sleep lasts its time and at most `drift` more, counted from the clock
      reading of the plan. */
  ghost predicate CanTake(fleet: Fleet, clock: nat, drift: nat, step: Step) {
    && clock <= step.now
    && match step
       case Plan(id, _, _) => id !in fleet.waiting
       case Cancel(id, _) => id in fleet.waiting
       case Retry(id, now) =>
         && id in fleet.waiting
         && var wait := fleet.waiting[id];
            wait.plannedAt + wait.total <= now <= wait.plannedAt + wait.total + drift
  }

  /** How long a plan sleeps: the policy delay, and as much more as the reservation asks for. */
  function TotalDelay(now: nat, delay: nat, r: Reservation): nat {
    delay + if r.scheduledAt > now + delay then r.scheduledAt - (now + delay) else 0
  }

  ghost function Take(per: nat, capacity: nat, key: string, fleet: Fleet, step: Step): Fleet
    requires 0 < per && 0 < capacity && ValidKey(key)
  {
    match step
    case Plan(id, now, delay) =>
      var op := Reserve(key, now, now + delay);
      var r := Apply(Exactly(per, capacity), BudgetRuns.Run(Exactly(per, capacity), fleet.ops).0, op).1.reservation;
      Fleet(fleet.ops + [op], fleet.waiting[id := Waiting(now, TotalDelay(now, delay, r), r)], fleet.starts)
    case Cancel(id, now) =>
      if id !in fleet.waiting then fleet
      else Fleet(fleet.ops + [Release(fleet.waiting[id].reservation, now)], fleet.waiting - {id}, fleet.starts)
    case Retry(id, now) =>
      if id !in fleet.waiting then fleet
      else Fleet(fleet.ops, fleet.waiting - {id}, fleet.starts + [Start(fleet.waiting[id].reservation, now)])
  }

  /** The fleet after a history of steps. */
  ghost function Run(per: nat, capacity: nat, key: string, steps: seq<Step>): Fleet
    requires 0 < per && 0 < capacity && ValidKey(key)
  {
    if steps == [] then Fleet([], map[], [])
    else Take(per, capacity, key, Run(per, capacity, key, steps[..|steps| - 1]), steps[|steps| - 1])
  }

  function Clock(steps: seq<Step>): nat {
    if steps == [] then 0 else steps[|steps| - 1].now
  }

  /** Every step of the history could be taken when it was. */
  ghost predicate Possible(per: nat, capacity: nat, key: string, drift: nat, steps: seq<Step>)
    requires 0 < per && 0 < capacity && ValidKey(key)
  {
    forall n :: 0 <= n < |steps| ==> CanTake(Run(per, capacity, key, steps[..n]), Clock(steps[..n]), drift, steps[n])
  }

  // ---------------------------------------------------------------- what every step keeps

  /** A reservation belongs to an execution that sleeps or to a retry that has started. */
  ghost predicate IsUsed(fleet: Fleet, r: Reservation) {
    || (exists id :: id in fleet.waiting && fleet.waiting[id].reservation == r)
    || (exists s :: s in fleet.starts && s.reservation == r)
  }

  /** Nothing is outstanding but what is used, and it is counted once. */
  ghost predicate NoneLeaks(fleet: Fleet, out: seq<Reservation>) {
    (forall r :: r in out ==> IsUsed(fleet, r)) && |out| == |fleet.waiting| + |fleet.starts|
  }

  /** What the executions hold is what is outstanding: reservations that sleep or have started, each
      once and no others, and every sleep ends at its slot. */
  ghost predicate Tracks(key: string, fleet: Fleet, drift: nat, out: seq<Reservation>, nextToken: nat) {
    && TokensRise(out, nextToken) && (forall r :: r in out ==> r.key == key) && NoneLeaks(fleet, out)
    && (forall id :: id in fleet.waiting ==>
          var w := fleet.waiting[id]; w.reservation in out && w.plannedAt + w.total == w.reservation.scheduledAt)
    && (forall i :: 0 <= i < |fleet.starts| ==>
          var s := fleet.starts[i];
          s.reservation in out && s.reservation.scheduledAt <= s.at <= s.reservation.scheduledAt + drift)
    && (forall id, other :: id in fleet.waiting && other in fleet.waiting && id != other ==>
          fleet.waiting[id].reservation.token != fleet.waiting[other].reservation.token)
    && (forall id, i :: id in fleet.waiting && 0 <= i < |fleet.starts| ==>
          fleet.waiting[id].reservation.token != fleet.starts[i].reservation.token)
    && (forall i, j :: 0 <= i < j < |fleet.starts| ==>
          fleet.starts[i].reservation.token != fleet.starts[j].reservation.token)
  }

  lemma {:induction false} RemovalShortens(rs: seq<Reservation>, r: Reservation)
    requires r in rs
    ensures |RemoveToken(rs, r.token)| == |rs| - 1
  {
    if rs[0].token != r.token {
      RemovalShortens(rs[1..], r);
    }
  }

  lemma PlanLeaksNone(fleet: Fleet, out: seq<Reservation>, id: nat, wait: Waiting, ops: seq<Op>)
    requires NoneLeaks(fleet, out) && id !in fleet.waiting
    ensures NoneLeaks(Fleet(ops, fleet.waiting[id := wait], fleet.starts), out + [wait.reservation])
  {
    var after := Fleet(ops, fleet.waiting[id := wait], fleet.starts);
    assert after.waiting[id].reservation == wait.reservation;
    forall r | r in out ensures IsUsed(after, r) {
      assert IsUsed(fleet, r);
      if other :| other in fleet.waiting && fleet.waiting[other].reservation == r {
        assert after.waiting[other].reservation == r;
      }
    }
  }

  /** Giving the reservation of a sleeping execution back. */
  lemma CancelLeaksNone(fleet: Fleet, out: seq<Reservation>, nextToken: nat, id: nat, ops: seq<Op>)
    requires NoneLeaks(fleet, out) && id in fleet.waiting && fleet.waiting[id].reservation in out
        && TokensRise(out, nextToken)
    ensures NoneLeaks(Fleet(ops, fleet.waiting - {id}, fleet.starts),
        RemoveToken(out, fleet.waiting[id].reservation.token))
  {
    hide TokensRise, RemoveToken;
    var after, gone := Fleet(ops, fleet.waiting - {id}, fleet.starts), fleet.waiting[id].reservation;
    RemovalShortens(out, gone);
    RemovedIsGone(out, gone.token, nextToken);
    OneLess(fleet.waiting, id);
    forall r | r in RemoveToken(out, gone.token) ensures IsUsed(after, r) {
      assert IsUsed(fleet, r);
      if other :| other in fleet.waiting && fleet.waiting[other].reservation == r {
        assert after.waiting[other].reservation == r;
      }
    }
  }

  lemma OneLess(waiting: map<nat, Waiting>, id: nat)
    requires id in waiting
    ensures |waiting - {id}| == |waiting| - 1
  {
    assert (waiting - {id}).Keys == waiting.Keys - {id};
  }

  lemma RetryLeaksNone(fleet: Fleet, out: seq<Reservation>, id: nat, now: nat, ops: seq<Op>)
    requires NoneLeaks(fleet, out) && id in fleet.waiting
    ensures NoneLeaks(Fleet(ops, fleet.waiting - {id}, fleet.starts + [Start(fleet.waiting[id].reservation, now)]), out)
  {
    var start := Start(fleet.waiting[id].reservation, now);
    var after := Fleet(ops, fleet.waiting - {id}, fleet.starts + [start]);
    OneLess(fleet.waiting, id);
    assert after.starts[|fleet.starts|] == start;
    forall r | r in out ensures IsUsed(after, r) {
      assert IsUsed(fleet, r);
      if other :| other in fleet.waiting && fleet.waiting[other].reservation == r {
        assert other != id ==> after.waiting[other].reservation == r;
      } else {
        var s :| s in fleet.starts && s.reservation == r;
        assert s in after.starts;
      }
    }
  }

  lemma TrackPlan(key: string, fleet: Fleet, drift: nat, out: seq<Reservation>, nextToken: nat, id: nat,
          wait: Waiting, ops: seq<Op>)
    requires Tracks(key, fleet, drift, out, nextToken) && id !in fleet.waiting
    requires wait.reservation.token == nextToken && wait.reservation.key == key
        && wait.plannedAt + wait.total == wait.reservation.scheduledAt
    ensures Tracks(key, Fleet(ops, fleet.waiting[id := wait], fleet.starts), drift, out + [wait.reservation],
        nextToken + 1)
  {
    hide NoneLeaks;
    PlanLeaksNone(fleet, out, id, wait, ops);
    var r := wait.reservation;
    assert forall x :: x in out ==> x in out + [r];
    assert (out + [r])[|out|] == r;
    assert forall x :: x in out ==> x.token < nextToken;
  }

  lemma TrackCancel(key: string, fleet: Fleet, drift: nat, out: seq<Reservation>, nextToken: nat, id: nat, ops: seq<Op>)
    requires Tracks(key, fleet, drift, out, nextToken) && id in fleet.waiting
    ensures Tracks(key, Fleet(ops, fleet.waiting - {id}, fleet.starts), drift,
        RemoveToken(out, fleet.waiting[id].reservation.token), nextToken)
  {
    hide TokensRise, RemoveToken, NoneLeaks;
    CancelLeaksNone(fleet, out, nextToken, id, ops);
    RemoveTokenRises(out, fleet.waiting[id].reservation.token, nextToken);
    RemoveTokenMembers(out, fleet.waiting[id].reservation.token);
  }

  lemma TrackRetry(key: string, fleet: Fleet, drift: nat, out: seq<Reservation>, nextToken: nat, id: nat, now: nat,
          ops: seq<Op>)
    requires Tracks(key, fleet, drift, out, nextToken) && id in fleet.waiting
    requires var w := fleet.waiting[id]; w.plannedAt + w.total <= now <= w.plannedAt + w.total + drift
    ensures Tracks(key, Fleet(ops, fleet.waiting - {id}, fleet.starts + [Start(fleet.waiting[id].reservation, now)]),
        drift, out, nextToken)
  {
    hide TokensRise, NoneLeaks;
    RetryLeaksNone(fleet, out, id, now, ops);
  }

  /** One more operation of a run, seen from `key`. */
  lemma OutstandingAfter(cfg: Config, ops: seq<Op>, op: Op, key: string)
    requires ValidConfig(cfg) && Steady(cfg.ar, ops + [op]) && Steady(cfg.ar, ops)
    requires op.Reserve? || op.Release?
    requires if op.Reserve? then op.key == key && ValidKey(key) else op.reservation.key == key
    ensures var (book, answers) := BudgetRuns.Run(cfg, ops);
            var (after, all) := BudgetRuns.Run(cfg, ops + [op]);
            && all == answers + [Apply(cfg, book, op).1]
            && if op.Reserve? then
                 Apply(cfg, book, op).1.Granted? &&
                 var r := Apply(cfg, book, op).1.reservation;
                 && r.token == book.nextToken && r.key == key && r.scheduledAt >= op.notBefore
                 && after.nextToken == book.nextToken + 1
                 && Outstanding(ops + [op], all, key) == Outstanding(ops, answers, key) + [r]
               else
                 && after.nextToken == book.nextToken
                 && Outstanding(ops + [op], all, key)
                     == RemoveToken(Outstanding(ops, answers, key), op.reservation.token)
  {
    hide Earliest;
    var all := ops + [op];
    assert all[..|ops|] == ops && all[|ops|] == op;
    var (book, answers) := BudgetRuns.Run(cfg, ops);
    var answer := Apply(cfg, book, op).1;
    assert (answers + [answer])[..|ops|] == answers && (answers + [answer])[|ops|] == answer;
  }

  /** The budget's readings never fall, and none is later than the clock. */
  predicate InOrder(ops: seq<Op>, clock: nat) {
    && (forall i, j :: 0 <= i < j < |ops| ==> ops[i].current <= ops[j].current)
    && (forall i :: 0 <= i < |ops| ==> ops[i].current <= clock)
  }

  ghost predicate Tracked(per: nat, capacity: nat, key: string, drift: nat, fleet: Fleet, clock: nat)
    requires 0 < per && 0 < capacity
  {
    EverySteady(per, fleet.ops);
    var (book, answers) := BudgetRuns.Run(Exactly(per, capacity), fleet.ops);
    Tracks(key, fleet, drift, Outstanding(fleet.ops, answers, key), book.nextToken) && InOrder(fleet.ops, clock)
  }

  lemma InOrderNext(ops: seq<Op>, clock: nat, op: Op)
    requires InOrder(ops, clock) && clock <= op.current
    ensures InOrder(ops + [op], op.current)
  {
  }

  lemma PlanTracked(per: nat, capacity: nat, key: string, drift: nat, fleet: Fleet, clock: nat, id: nat, now: nat,
          delay: nat)
    requires 0 < per && 0 < capacity && ValidKey(key)
    requires Tracked(per, capacity, key, drift, fleet, clock) && clock <= now && id !in fleet.waiting
    ensures Tracked(per, capacity, key, drift, Take(per, capacity, key, fleet, Plan(id, now, delay)), now)
  {
    hide Tracks, InOrder, Apply, BudgetRuns.Run, Outstanding;
    var cfg, op := Exactly(per, capacity), Reserve(key, now, now + delay);
    EverySteady(per, fleet.ops);
    EverySteady(per, fleet.ops + [op]);
    var (book, answers) := BudgetRuns.Run(cfg, fleet.ops);
    OutstandingAfter(cfg, fleet.ops, op, key);
    InOrderNext(fleet.ops, clock, op);
    var r := Apply(cfg, book, op).1.reservation;
    var wait := Waiting(now, TotalDelay(now, delay, r), r);
    TrackPlan(key, fleet, drift, Outstanding(fleet.ops, answers, key), book.nextToken, id, wait, fleet.ops + [op]);
  }

  lemma CancelTracked(per: nat, capacity: nat, key: string, drift: nat, fleet: Fleet, clock: nat, id: nat, now: nat)
    requires 0 < per && 0 < capacity && ValidKey(key)
    requires Tracked(per, capacity, key, drift, fleet, clock) && clock <= now && id in fleet.waiting
    ensures Tracked(per, capacity, key, drift, Take(per, capacity, key, fleet, Cancel(id, now)), now)
  {
    hide Tracks, InOrder, Apply, BudgetRuns.Run, Outstanding;
    var cfg, op := Exactly(per, capacity), Release(fleet.waiting[id].reservation, now);
    EverySteady(per, fleet.ops);
    EverySteady(per, fleet.ops + [op]);
    var (book, answers) := BudgetRuns.Run(cfg, fleet.ops);
    var out := Outstanding(fleet.ops, answers, key);
    TrackedKey(key, fleet, drift, out, book.nextToken, id);
    OutstandingAfter(cfg, fleet.ops, op, key);
    InOrderNext(fleet.ops, clock, op);
    TrackCancel(key, fleet, drift, out, book.nextToken, id, fleet.ops + [op]);
  }

  lemma RetryTracked(per: nat, capacity: nat, key: string, drift: nat, fleet: Fleet, clock: nat, id: nat, now: nat)
    requires 0 < per && 0 < capacity && ValidKey(key)
    requires Tracked(per, capacity, key, drift, fleet, clock) && CanTake(fleet, clock, drift, Retry(id, now))
    ensures Tracked(per, capacity, key, drift, Take(per, capacity, key, fleet, Retry(id, now)), now)
  {
    hide Tracks, BudgetRuns.Run, Outstanding;
    EverySteady(per, fleet.ops);
    var (book, answers) := BudgetRuns.Run(Exactly(per, capacity), fleet.ops);
    TrackRetry(key, fleet, drift, Outstanding(fleet.ops, answers, key), book.nextToken, id, now, fleet.ops);
  }

  lemma StepTracked(per: nat, capacity: nat, key: string, drift: nat, fleet: Fleet, clock: nat, step: Step)
    requires 0 < per && 0 < capacity && ValidKey(key)
    requires Tracked(per, capacity, key, drift, fleet, clock) && CanTake(fleet, clock, drift, step)
    ensures Tracked(per, capacity, key, drift, Take(per, capacity, key, fleet, step), step.now)
  {
    hide Tracked, Take;
    match step
    case Plan(id, now, delay) => PlanTracked(per, capacity, key, drift, fleet, clock, id, now, delay);
    case Cancel(id, now) => CancelTracked(per, capacity, key, drift, fleet, clock, id, now);
    case Retry(id, now) => RetryTracked(per, capacity, key, drift, fleet, clock, id, now);
  }

  lemma TrackedKey(key: string, fleet: Fleet, drift: nat, out: seq<Reservation>, nextToken: nat, id: nat)
    requires Tracks(key, fleet, drift, out, nextToken) && id in fleet.waiting
    ensures fleet.waiting[id].reservation.key == key
  {
  }

  lemma {:induction false} AlwaysTracked(per: nat, capacity: nat, key: string, drift: nat, steps: seq<Step>)
    requires 0 < per && 0 < capacity && ValidKey(key) && Possible(per, capacity, key, drift, steps)
    ensures Tracked(per, capacity, key, drift, Run(per, capacity, key, steps), Clock(steps))
    decreases |steps|
  {
    hide Tracked, CanTake, Take;
    if steps == [] {
      NothingTracked(per, capacity, key, drift);
    } else {
      var n := |steps| - 1;
      forall i | 0 <= i < n
        ensures CanTake(Run(per, capacity, key, steps[..n][..i]), Clock(steps[..n][..i]), drift, steps[..n][i])
      {
        assert steps[..n][..i] == steps[..i];
      }
      AlwaysTracked(per, capacity, key, drift, steps[..n]);
      StepTracked(per, capacity, key, drift, Run(per, capacity, key, steps[..n]), Clock(steps[..n]), steps[n]);
    }
  }

  lemma NothingTracked(per: nat, capacity: nat, key: string, drift: nat)
    requires 0 < per && 0 < capacity
    ensures Tracked(per, capacity, key, drift, Fleet([], map[], []), 0)
  {
  }

  lemma OneMoreStep(per: nat, capacity: nat, key: string, drift: nat, steps: seq<Step>, step: Step)
    requires 0 < per && 0 < capacity && ValidKey(key) && Possible(per, capacity, key, drift, steps)
    requires CanTake(Run(per, capacity, key, steps), Clock(steps), drift, step)
    ensures Possible(per, capacity, key, drift, steps + [step])
    ensures Run(per, capacity, key, steps + [step]) == Take(per, capacity, key, Run(per, capacity, key, steps), step)
  {
    hide CanTake, Take;
    var all := steps + [step];
    assert all[..|steps|] == steps;
    forall n | 0 <= n < |all| ensures CanTake(Run(per, capacity, key, all[..n]), Clock(all[..n]), drift, all[n]) {
      if n < |steps| {
        assert all[..n] == steps[..n];
      }
    }
  }

  lemma NoSteps(per: nat, capacity: nat, key: string, drift: nat)
    requires 0 < per && 0 < capacity && ValidKey(key)
    ensures Possible(per, capacity, key, drift, []) && Run(per, capacity, key, []) == Fleet([], map[], [])
  {
  }

  // ---------------------------------------------------------------- when retries start

  /** The times at which the retries of the fleet started. */
  function StartTimes(starts: seq<Start>): (ts: seq<nat>)
    ensures |ts| == |starts| && forall i :: 0 <= i < |starts| ==> ts[i] == starts[i].at
  {
    seq(|starts|, i requires 0 <= i < |starts| => starts[i].at)
  }

  function Started(starts: seq<Start>): (rs: seq<Reservation>)
    ensures |rs| == |starts| && forall i :: 0 <= i < |starts| ==> rs[i] == starts[i].reservation
  {
    seq(|starts|, i requires 0 <= i < |starts| => starts[i].reservation)
  }

  /** Every retry starts at its slot, or up to `drift` later. */
  predicate OnTime(starts: seq<Start>, drift: nat) {
    forall i :: 0 <= i < |starts| ==>
      starts[i].reservation.scheduledAt <= starts[i].at <= starts[i].reservation.scheduledAt + drift
  }

  /** A start in a window has its slot in the window that reaches `drift` further back. */
  lemma {:induction false} DriftWidens(per: nat, drift: nat, starts: seq<Start>, w: int)
    requires OnTime(starts, drift)
    ensures Count(Exact(per), StartTimes(starts), w) <= Count(Exact(per + drift), Times(Started(starts)), w)
  {
    if starts != [] {
      DriftWidens(per, drift, starts[1..], w);
      assert StartTimes(starts)[1..] == StartTimes(starts[1..]);
      assert Times(Started(starts))[1..] == Times(Started(starts[1..]));
    }
  }

  lemma {:induction false} CountSplits(p: nat, q: nat, times: seq<nat>, w: int)
    ensures Count(Exact(p + q), times, w) == Count(Exact(p), times, w) + Count(Exact(q), times, w - p)
  {
    if times != [] {
      CountSplits(p, q, times[1..], w);
    }
  }

  lemma {:induction false} CountWidens(p: nat, q: nat, times: seq<nat>, w: int)
    requires p <= q
    ensures Count(Exact(p), times, w) <= Count(Exact(q), times, w)
  {
    if times != [] {
      CountWidens(p, q, times[1..], w);
    }
  }

  /** A window of `n` periods holds at most `n` times the capacity. */
  lemma {:induction false} WideWindow(per: nat, capacity: nat, times: seq<nat>, n: nat, w: int)
    requires WithinCapacity(Exact(per), capacity, times)
    ensures Count(Exact(n * per), times, w) <= n * capacity
    decreases n
  {
    hide Count;
    if n == 0 {
      assert n * per == 0;
      EmptyWindow(times, w);
    } else {
      WideWindow(per, capacity, times, n - 1, w - per);
      CountSplits(per, (n - 1) * per, times, w);
      assert n * per == per + (n - 1) * per && n * capacity == capacity + (n - 1) * capacity;
    }
  }

  lemma {:induction false} EmptyWindow(times: seq<nat>, w: int)
    ensures Count(Exact(0), times, w) == 0
  {
    if times != [] {
      EmptyWindow(times[1..], w);
    }
  }

  lemma InOrderHasNoPeak(per: nat, ops: seq<Op>, clock: nat)
    requires InOrder(ops, clock)
    ensures NoPeak(Exact(per), Readings(ops))
  {
    ExactIsSound(per);
    NonDecreasingHasNoPeak(Exact(per), Readings(ops));
  }

  /** A window sees no more starts than the window that reaches `drift` further back has slots outstanding. */
  lemma StartsAreTracked(per: nat, key: string, fleet: Fleet, drift: nat, out: seq<Reservation>, nextToken: nat, w: int)
    requires Tracks(key, fleet, drift, out, nextToken)
    ensures OnTime(fleet.starts, drift)
    ensures Count(Exact(per), StartTimes(fleet.starts), w) <= Count(Exact(per + drift), Times(out), w)
  {
    hide TokensRise, NoneLeaks, Count;
    DriftWidens(per, drift, fleet.starts, w);
    CountOfPart(Exact(per + drift), Started(fleet.starts), out, nextToken, w);
  }

  /** The rate limit end to end. However the executions interleave, a retry starts at its slot, or as
      much later as its sleep drifted; and any window of length `per` sees at most `capacity` starts
      for each period that the window and the drift cover: exactly the configured rate without drift. */
  lemma FleetKeepsRate(per: nat, capacity: nat, key: string, drift: nat, steps: seq<Step>, n: nat, w: int)
    requires 0 < per && 0 < capacity && ValidKey(key) && Possible(per, capacity, key, drift, steps)
    requires per + drift <= n * per
    ensures var starts := Run(per, capacity, key, steps).starts;
            OnTime(starts, drift) && Count(Exact(per), StartTimes(starts), w) <= n * capacity
  {
    hide Run, Possible, BudgetRuns.Run, Outstanding, Count, WithinCapacity, Steady, InOrder, Tracks, NoPeak, TokensRise;
    var cfg, fleet := Exactly(per, capacity), Run(per, capacity, key, steps);
    AlwaysTracked(per, capacity, key, drift, steps);
    EverySteady(per, fleet.ops);
    var (book, answers) := BudgetRuns.Run(cfg, fleet.ops);
    var out := Outstanding(fleet.ops, answers, key);
    InOrderHasNoPeak(per, fleet.ops, Clock(steps));
    StartsAreTracked(per, key, fleet, drift, out, book.nextToken, w);
    CapacityOverWholeRuns(cfg, fleet.ops, key);
    CountWidens(per + drift, n * per, Times(out), w);
    WideWindow(per, capacity, Times(out), n, w);
  }

  /** Without drift every retry starts at its slot, and no window sees more than `capacity` of them. */
  lemma FleetWithoutDrift(per: nat, capacity: nat, key: string, steps: seq<Step>)
    requires 0 < per && 0 < capacity && ValidKey(key) && Possible(per, capacity, key, 0, steps)
    ensures var starts := Run(per, capacity, key, steps).starts;
            && (forall i :: 0 <= i < |starts| ==> starts[i].at == starts[i].reservation.scheduledAt)
            && WithinCapacity(Exact(per), capacity, StartTimes(starts))
  {
    hide Run, Possible, Count;
    var starts := Run(per, capacity, key, steps).starts;
    FleetKeepsRate(per, capacity, key, 0, steps, 1, 0);
    forall w ensures Count(Exact(per), StartTimes(starts), w) <= capacity {
      FleetKeepsRate(per, capacity, key, 0, steps, 1, w);
    }
  }
}
