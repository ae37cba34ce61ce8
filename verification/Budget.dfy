/** The retry budget itself: one object whose operations update its table in place. Each
operation runs under a lock in the source, so here it is one atomic method. */
module Budget {
  import opened RollingWindow
  import opened LegalityTests
  import opened BudgetState
  import BudgetRuns
  import BudgetAnswers

  datatype Result<+T> = Ok(value: T) | InvalidKey

  class RetryBudget {
    const config: Config
    var reservations: map<string, seq<Reservation>>
    var nextToken: nat
    var opCount: nat

    /** Every call so far and its answer. */
    ghost var history: seq<BudgetRuns.Op>
    ghost var answers: seq<BudgetRuns.Answer>

    /** The fields are what the history has made of an empty budget. */
    ghost predicate Valid()
      reads this
    {
      && ValidConfig(config)
      && BudgetRuns.Steady(config.ar, history) && BudgetRuns.Run(config, history) == (Contents(), answers)
    }

    /** The budget as a value. */
    function Contents(): Book
      reads this
    {
      Book(reservations, nextToken, opCount)
    }

    constructor (config: Config)
      requires ValidConfig(config)
      ensures Valid() && this.config == config && Contents() == EMPTY_BOOK && history == [] && answers == []
    {
      this.config := config;
      reservations := map[];
      nextToken := 1;
      opCount := 0;
      history, answers := [], [];
    }

    /** What the history owes its callers: no window is overfull with what was granted and not released,
        forgotten or not, when the clock readings have no peak; and none ever with what is retained. */
    lemma CapacityIsKept(key: string)
      requires Valid()
      ensures WithinCapacity(config.ar, config.capacity, Times(Lookup(reservations, key)))
      ensures BudgetRuns.NoPeak(config.ar, BudgetRuns.Readings(history)) ==>
                WithinCapacity(config.ar, config.capacity, Times(BudgetRuns.Outstanding(history, answers, key)))
    {
      hide WithinCapacity, BudgetRuns.Run, BudgetRuns.NoPeak, BudgetRuns.Outstanding;
      BudgetRuns.RetainedWithinCapacity(config, history);
      if BudgetRuns.NoPeak(config.ar, BudgetRuns.Readings(history)) {
        BudgetRuns.CapacityOverWholeRuns(config, history, key);
      }
    }

    /** Adds a call to the history. */
    ghost method Note(op: BudgetRuns.Op, answer: BudgetRuns.Answer, before: Book)
      requires ValidConfig(config) && BudgetRuns.Ends(config.ar, op)
      requires BudgetRuns.Steady(config.ar, history) && BudgetRuns.Run(config, history) == (before, answers)
      requires BudgetRuns.Apply(config, before, op) == (Contents(), answer)
      modifies this`history, this`answers
      ensures Valid() && history == old(history) + [op] && answers == old(answers) + [answer]
    {
      hide BudgetRuns.Run, BudgetRuns.Apply;
      BudgetRuns.RunGoesOn(config, history, op);
      history, answers := history + [op], answers + [answer];
    }

    /** Grants the earliest slot from `max(current, notBefore)` on, and keeps it in the table. */
    method Reserve(key: string, current: nat, notBefore: nat) returns (r: Result<Reservation>)
      requires Valid()
      modifies this
      ensures Valid() && history == old(history) + [BudgetRuns.Reserve(key, current, notBefore)]
      ensures !ValidKey(key) ==> r == InvalidKey && Contents() == old(Contents())
      ensures ValidKey(key) ==>
          r.Ok? && (Contents(), r.value) == ReserveStep(config, old(Contents()), key, current, notBefore)
      ensures ValidKey(key) ==>
          && key in reservations && reservations[key] != [] && r.value == reservations[key][|reservations[key]| - 1]
          && BudgetAnswers.IsFirstFit(config, reservations[key][..|reservations[key]| - 1],
                                      if notBefore > current then notBefore else current, r.value.scheduledAt)
    {
      hide MaybeCleanup, Sort, Live, Earliest, Horizon, ValidKey, BudgetRuns.Run, BudgetRuns.Steady;
      hide BudgetAnswers.IsFirstFit, BudgetAnswers.IsRetained;
      ghost var before, op := Contents(), BudgetRuns.Reserve(key, current, notBefore);
      BudgetAnswers.ReservationIsFirstFit(config, history, key, current, notBefore);
      if !ValidKey(key) {
        Note(op, BudgetRuns.Refused, before);
        return InvalidKey;
      }
      var candidate := if notBefore > current then notBefore else current;
      CountOperation(current);
      var kept := Prune(Lookup(reservations, key), current);
      var scheduledTimes := Sort(Times(kept));
      EarliestPermuted(config.ar, config.capacity, scheduledTimes, Times(kept), candidate);
      var slot, _, _ := FirstLegalSlot(config.ar, config.capacity, candidate, scheduledTimes);
      var reservation := Reservation(nextToken, key, slot);
      nextToken := nextToken + 1;
      reservations := reservations[key := kept + [reservation]];
      Note(op, BudgetRuns.Granted(reservation), before);
      return Ok(reservation);
    }

    /** Releases one unused reservation; releasing it again changes nothing but the operation count. */
    method Release(reservation: Reservation, current: nat)
      requires Valid()
      modifies this
      ensures Valid() && history == old(history) + [BudgetRuns.Release(reservation, current)]
      ensures Contents() == ReleaseStep(config, old(Contents()), reservation, current)
    {
      hide MaybeCleanup, BudgetRuns.Run, BudgetRuns.Steady;
      ghost var before, op := Contents(), BudgetRuns.Release(reservation, current);
      CountOperation(current);
      var rs := Lookup(reservations, reservation.key);
      if rs == [] {
        Note(op, BudgetRuns.Done, before);
        return;
      }
      var rest := DeleteFirst(rs, reservation.token);
      reservations := if rest == [] then reservations - {reservation.key} else reservations[reservation.key := rest];
      Note(op, BudgetRuns.Done, before);
    }

    /** Deletes the first reservation that carries the token, if there is one. */
    static method DeleteFirst(rs: seq<Reservation>, token: nat) returns (rest: seq<Reservation>)
      ensures rest == RemoveToken(rs, token)
    {
      hide RemoveToken;
      RemoveFrom(rs, token, 0);
      for index := 0 to |rs|
        invariant RemoveToken(rs, token) == rs[..index] + RemoveToken(rs[index..], token)
      {
        RemoveFrom(rs, token, index);
        if rs[index].token == token {
          return rs[..index] + rs[index + 1..];
        }
      }
      RemoveFrom(rs, token, |rs|);
      return rs;
    }

    method Snapshot(key: string, current: nat) returns (r: Result<Snapshot>)
      requires Valid() && config.ar.sub(current) < current
      modifies this
      ensures Valid() && history == old(history) + [BudgetRuns.Snapshot(key, current)]
      ensures !ValidKey(key) ==> r == InvalidKey && Contents() == old(Contents())
      ensures ValidKey(key) ==> r.Ok? && (Contents(), r.value) == SnapshotStep(config, old(Contents()), key, current)
      ensures ValidKey(key) ==>
          var kept := Lookup(reservations, key);
          && r.value.active == BudgetAnswers.BegunBy(kept, current) && r.value.active + r.value.queued == |kept|
          && BudgetAnswers.IsFirstFit(config, kept, current, current + r.value.nextAvailableIn)
    {
      hide MaybeCleanup, ValidKey, View, BudgetRuns.Run, BudgetRuns.Steady;
      hide BudgetAnswers.IsFirstFit, BudgetAnswers.IsRetained, BudgetAnswers.BegunBy;
      ghost var before, op := Contents(), BudgetRuns.Snapshot(key, current);
      BudgetAnswers.SnapshotTells(config, history, key, current);
      if !ValidKey(key) {
        Note(op, BudgetRuns.Refused, before);
        return InvalidKey;
      }
      CountOperation(current);
      if key !in reservations {
        var none := SnapshotOf(key, config.capacity, 0, config.capacity, 0, 0);
        Note(op, BudgetRuns.Seen(none), before);
        return Ok(none);
      }
      var kept := Prune(reservations[key], current);
      reservations := reservations[key := kept];
      var view := Describe(key, kept, current);
      Note(op, BudgetRuns.Seen(view), before);
      return Ok(view);
    }

    /** The read-only view of the retained reservations of one key. */
    method Describe(key: string, kept: seq<Reservation>, current: nat) returns (view: Snapshot)
      requires ValidConfig(config) && config.ar.sub(current) < current
      ensures view == View(config, key, Times(kept), current)
    {
      var times := Sort(Times(kept));
      var active, queued := ActiveAndQueued(times, current);
      var available := AvailableAt(config.ar, config.capacity, current, times);
      var nextAvailable, _, _ := FirstLegalSlot(config.ar, config.capacity, current, times);
      SortedView(config, key, Times(kept), current);
      return SnapshotOf(key, config.capacity, active, available, queued, nextAvailable - current);
    }

    /** How many of the times lie in the window ending now, and how many lie in the future. */
    method ActiveAndQueued(times: seq<nat>, current: nat) returns (active: nat, queued: nat)
      ensures active == Count(config.ar, times, current) && queued == CountAfter(times, current)
    {
      active, queued := 0, 0;
      for i := 0 to |times|
        invariant active + Count(config.ar, times[i..], current) == Count(config.ar, times, current)
        invariant queued + CountAfter(times[i..], current) == CountAfter(times, current)
      {
        assert times[i..][1..] == times[i + 1..];
        if config.ar.sub(current) < times[i] <= current {
          active := active + 1;
        }
        if times[i] > current {
          queued := queued + 1;
        }
      }
    }

    method Cleanup(current: nat)
      requires Valid()
      modifies this
      ensures Valid() && history == old(history) + [BudgetRuns.Cleanup(current)]
      ensures Contents() == CleanupStep(config, old(Contents()), current)
    {
      ghost var before := Contents();
      CleanupExpiredKeys(current);
      Note(BudgetRuns.Cleanup(current), BudgetRuns.Done, before);
    }

    /** The reservations that are not yet outside the rolling period. */
    method Prune(rs: seq<Reservation>, candidate: nat) returns (keep: seq<Reservation>)
      ensures keep == Live(rs, config.ar.sub(candidate))
    {
      keep := [];
      var boundary := config.ar.sub(candidate);
      for i := 0 to |rs|
        invariant keep == Live(rs[..i], boundary)
      {
        assert rs[..i + 1] == rs[..i] + [rs[i]];
        LiveConcat(rs[..i], [rs[i]], boundary);
        if rs[i].scheduledAt > boundary {
          keep := keep + [rs[i]];
        }
      }
      assert rs[..|rs|] == rs;
    }

    /** Drops every key whose reservations have all expired. */
    method CleanupExpiredKeys(current: nat)
      modifies this`reservations
      ensures reservations == Sweep(config.ar, old(reservations), current)
    {
      ghost var before := reservations;
      var pending := reservations.Keys;
      while pending != {}
        invariant pending <= before.Keys
        invariant reservations == map key | key in before
            && (key in pending || !Expired(config.ar, before[key], current)) :: before[key]
        decreases |pending|
      {
        var key :| key in pending;
        pending := pending - {key};
        if Expired(config.ar, reservations[key], current) {
          reservations := reservations - {key};
        }
      }
    }

    /** Amortized cleanup: every 100th counted operation sweeps the table. */
    method CountOperation(current: nat)
      modifies this`reservations, this`opCount
      ensures Contents() == MaybeCleanup(config.ar, old(Contents()), current)
    {
      opCount := opCount + 1;
      if opCount >= CLEANUP_INTERVAL {
        opCount := 0;
        CleanupExpiredKeys(current);
      }
    }
  }

  /** Removing from the tail at `index`: the next element goes, or stays and the search moves on. */
  lemma RemoveFrom(rs: seq<Reservation>, token: nat, index: nat)
    requires index <= |rs|
    ensures rs[..0] + RemoveToken(rs[0..], token) == RemoveToken(rs, token)
    ensures index == |rs| ==> rs[..index] + RemoveToken(rs[index..], token) == rs
    ensures index < |rs| ==>
              rs[..index] + RemoveToken(rs[index..], token)
              == if rs[index].token == token then rs[..index] + rs[index + 1..]
                 else rs[..index + 1] + RemoveToken(rs[index + 1..], token)
  {
    assert rs[0..] == rs;
    if index < |rs| {
      assert rs[index..][1..] == rs[index + 1..];
      assert rs[..index + 1] == rs[..index] + [rs[index]];
      var rest := RemoveToken(rs[index + 1..], token);
      assert rs[..index] + ([rs[index]] + rest) == rs[..index] + [rs[index]] + rest;
    }
  }

  lemma CountAfterPermuted(a: seq<nat>, b: seq<nat>, t: nat)
    requires multiset(a) == multiset(b)
    ensures CountAfter(a, t) == CountAfter(b, t)
  {
    // The times after `t` are the ones a window with boundary `t` and no upper end counts.
    var top := Above(a + b, t);
    assert forall i :: 0 <= i < |a| ==> a[i] == (a + b)[i];
    assert forall i :: 0 <= i < |b| ==> b[i] == (a + b)[|a| + i];
    var beyond := Arith(w => t, f => f);
    CountAfterIsCount(beyond, a, t, top);
    CountAfterIsCount(beyond, b, t, top);
    CountPermuted(beyond, a, b, top);
  }

  function Above(times: seq<nat>, t: nat): (top: nat)
    ensures t <= top && forall i :: 0 <= i < |times| ==> times[i] <= top
  {
    if times == [] then t else Max(Above(times[1..], t), times[0])
  }

  lemma {:induction false} CountAfterIsCount(ar: Arith, times: seq<nat>, t: nat, top: nat)
    requires ar.sub(top) == t && forall i :: 0 <= i < |times| ==> times[i] <= top
    ensures CountAfter(times, t) == Count(ar, times, top)
  {
    if times != [] {
      CountAfterIsCount(ar, times[1..], t, top);
    }
  }

  lemma SortedView(cfg: Config, key: string, times: seq<nat>, current: nat)
    requires ValidConfig(cfg) && cfg.ar.sub(current) < current
    ensures View(cfg, key, Sort(times), current) == View(cfg, key, times, current)
  {
    CountPermuted(cfg.ar, Sort(times), times, current);
    CountAfterPermuted(Sort(times), times, current);
    AvailablePermuted(cfg.ar, cfg.capacity, Sort(times), times, current);
    EarliestPermuted(cfg.ar, cfg.capacity, Sort(times), times, current);
  }
}
