/** Bursts: requests for one time on an idle key, and the batches they are granted. */
module Bursts {
  import opened RollingWindow
  import opened LegalityTests
  import opened Rounding
  import opened BudgetState
  import opened BudgetRuns

  /** The start of the n-th batch of a burst from `t`: `t`, its exit point, the exit point of that, ... */
  function BatchStart(ar: Arith, t: nat, n: nat): nat
    requires Sound(ar)
  {
    if n == 0 then t else FirstSlotAfterWindow(ar, BatchStart(ar, t, n - 1))
  }

  lemma FirstBatchStart(ar: Arith, t: nat)
    requires Sound(ar)
    ensures BatchStart(ar, t, 0) == t
  {
  }

  lemma NextBatchStart(ar: Arith, t: nat, n: nat)
    requires Sound(ar)
    ensures forall w :: BatchStart(ar, t, n + 1) <= w <==> BatchStart(ar, t, n) <= ar.sub(w)
    ensures BatchStart(ar, t, n) <= BatchStart(ar, t, n + 1)
  {
    var before, next := BatchStart(ar, t, n), BatchStart(ar, t, n + 1);
    assert next == FirstSlotAfterWindow(ar, before);
    assert next <= next <==> before <= ar.sub(next);
  }

  lemma {:induction false} ExactBatchStart(per: nat, t: nat, n: nat)
    ensures Sound(Exact(per)) && BatchStart(Exact(per), t, n) == t + n * per
  {
    hide Sound, FirstSlotAfterWindow;
    ExactIsSound(per);
    if n > 0 {
      ExactBatchStart(per, t, n - 1);
      assert n * per == (n - 1) * per + per;
    }
  }

  lemma {:induction false} BatchStartsRise(ar: Arith, t: nat, m: nat, n: nat)
    requires Sound(ar) && m <= n
    ensures BatchStart(ar, t, m) <= BatchStart(ar, t, n)
  {
    hide Sound, FirstSlotAfterWindow, BatchStart;
    if m < n {
      BatchStartsRise(ar, t, m, n - 1);
      NextBatchStart(ar, t, n - 1);
    }
  }

  /** The first `q` batches of a burst, all full. */
  function Batches(ar: Arith, capacity: nat, t: nat, q: nat): seq<nat>
    requires Sound(ar)
  {
    if q == 0 then [] else Batches(ar, capacity, t, q - 1) + Copies(BatchStart(ar, t, q - 1), capacity)
  }

  /** The batch of request number `n`, counted from zero. */
  function BatchOf(n: nat, capacity: nat): nat
    requires 0 < capacity
  {
    n / capacity
  }

  /** The slots of a burst of `n`: full batches and then a part of the next one. */
  function Burst(ar: Arith, capacity: nat, t: nat, n: nat): seq<nat>
    requires Sound(ar) && 0 < capacity
  {
    Batches(ar, capacity, t, BatchOf(n, capacity)) + Copies(BatchStart(ar, t, BatchOf(n, capacity)), n % capacity)
  }

  lemma BurstGrows(ar: Arith, capacity: nat, t: nat, n: nat)
    requires Sound(ar) && 0 < capacity
    ensures Burst(ar, capacity, t, n + 1) == Burst(ar, capacity, t, n) + [BatchStart(ar, t, BatchOf(n, capacity))]
  {
    hide Sound, FirstSlotAfterWindow, BatchStart;
    var q, r := BatchOf(n, capacity), n % capacity;
    var start := BatchStart(ar, t, q);
    assert Copies(start, r) + [start] == Copies(start, r + 1);
    NextQuotient(n, capacity);
    if r + 1 == capacity {
      assert Copies(BatchStart(ar, t, q + 1), 0) == [];
    }
  }

  lemma NextQuotient(n: nat, d: nat)
    requires 0 < d
    ensures n % d + 1 < d ==> (n + 1) / d == n / d && (n + 1) % d == n % d + 1
    ensures n % d + 1 == d ==> (n + 1) / d == n / d + 1 && (n + 1) % d == 0
  {
    var q, r := n / d, n % d;
    assert n == q * d + r;
    if r + 1 < d {
      DivisionIsUnique(n + 1, d, q, r + 1);
    } else {
      assert n + 1 == (q + 1) * d;
      DivisionIsUnique(n + 1, d, q + 1, 0);
    }
  }

  lemma DivisionIsUnique(n: nat, d: nat, q: nat, r: nat)
    requires 0 < d && n == q * d + r && r < d
    ensures n / d == q && n % d == r
  {
    var p := n / d;
    assert n == p * d + n % d;
    if p < q {
      MultiplesApart(p, q, d);
    } else if q < p {
      MultiplesApart(q, p, d);
    }
  }

  lemma {:induction false} MultiplesApart(a: nat, b: nat, d: nat)
    requires a < b
    ensures a * d + d <= b * d
  {
    if a + 1 < b {
      MultiplesApart(a, b - 1, d);
    }
  }

  /** Batches that start at or before the window's boundary do not count. */
  lemma {:induction false} CountBatchesBehind(ar: Arith, capacity: nat, t: nat, q: nat, w: int)
    requires Sound(ar)
    requires q > 0 ==> BatchStart(ar, t, q - 1) <= ar.sub(w)
    ensures Count(ar, Batches(ar, capacity, t, q), w) == 0
  {
    hide Sound, FirstSlotAfterWindow, BatchStart;
    if q > 0 {
      if q > 1 {
        BatchStartsRise(ar, t, q - 2, q - 1);
      }
      CountBatchesBehind(ar, capacity, t, q - 1, w);
      CountConcat(ar, Batches(ar, capacity, t, q - 1), Copies(BatchStart(ar, t, q - 1), capacity), w);
      CountCopies(ar, BatchStart(ar, t, q - 1), capacity, w);
    }
  }

  /** A window with the start of a full batch is full. */
  lemma {:induction false} CountBatchesFull(ar: Arith, capacity: nat, t: nat, k: nat, q: nat, w: int)
    requires Sound(ar) && k < q && InWindow(ar, BatchStart(ar, t, k), w)
    ensures Count(ar, Batches(ar, capacity, t, q), w) >= capacity
  {
    hide Sound, FirstSlotAfterWindow, BatchStart;
    CountConcat(ar, Batches(ar, capacity, t, q - 1), Copies(BatchStart(ar, t, q - 1), capacity), w);
    if k == q - 1 {
      CountCopies(ar, BatchStart(ar, t, k), capacity, w);
    } else {
      CountBatchesFull(ar, capacity, t, k, q - 1, w);
    }
  }

  /** The last batch that has started at `x`. */
  lemma {:induction false} BatchAt(ar: Arith, t: nat, q: nat, x: nat) returns (k: nat)
    requires Sound(ar) && t <= x < BatchStart(ar, t, q)
    ensures k < q && BatchStart(ar, t, k) <= x < BatchStart(ar, t, k + 1)
  {
    hide Sound, FirstSlotAfterWindow, BatchStart;
    FirstBatchStart(ar, t);
    if BatchStart(ar, t, q - 1) <= x {
      k := q - 1;
    } else {
      k := BatchAt(ar, t, q - 1, x);
    }
  }

  /** Before the next batch starts, the current one fills the window. */
  lemma FullBatchBlocks(ar: Arith, capacity: nat, t: nat, n: nat, x: nat)
    requires Sound(ar) && 0 < capacity && t <= x < BatchStart(ar, t, BatchOf(n, capacity))
    ensures !LegalSlot(ar, capacity, Burst(ar, capacity, t, n), x)
  {
    hide Sound, FirstSlotAfterWindow, BatchStart;
    var q := BatchOf(n, capacity);
    var k := BatchAt(ar, t, q, x);
    NextBatchStart(ar, t, k);
    assert InWindow(ar, BatchStart(ar, t, k), x) && InWindow(ar, x, x);
    CountBatchesFull(ar, capacity, t, k, q, x);
    CountConcat(ar, Batches(ar, capacity, t, q), Copies(BatchStart(ar, t, q), n % capacity), x);
  }

  /** When the next batch starts, all full ones have left the window. */
  lemma NextBatchIsLegal(ar: Arith, capacity: nat, t: nat, n: nat)
    requires Sound(ar) && 0 < capacity
    ensures LegalSlot(ar, capacity, Burst(ar, capacity, t, n), BatchStart(ar, t, BatchOf(n, capacity)))
  {
    hide Sound, FirstSlotAfterWindow, BatchStart;
    var q := BatchOf(n, capacity);
    var slot := BatchStart(ar, t, q);
    forall w | InWindow(ar, slot, w) ensures Count(ar, Burst(ar, capacity, t, n), w) < capacity {
      if q > 0 {
        NextBatchStart(ar, t, q - 1);
      }
      CountBatchesBehind(ar, capacity, t, q, w);
      CountConcat(ar, Batches(ar, capacity, t, q), Copies(slot, n % capacity), w);
      CountCopies(ar, slot, n % capacity, w);
    }
  }

  lemma NextOfBurst(ar: Arith, capacity: nat, t: nat, n: nat)
    requires Sound(ar) && 0 < capacity
    ensures Earliest(ar, capacity, Burst(ar, capacity, t, n), t) == BatchStart(ar, t, BatchOf(n, capacity))
  {
    hide Sound, FirstSlotAfterWindow, BatchStart;
    FirstBatchStart(ar, t);
    BatchStartsRise(ar, t, 0, BatchOf(n, capacity));
    NextBatchIsLegal(ar, capacity, t, n);
    var e := Earliest(ar, capacity, Burst(ar, capacity, t, n), t);
    if e < BatchStart(ar, t, BatchOf(n, capacity)) {
      FullBatchBlocks(ar, capacity, t, n, e);
    }
  }

  /** The archive's answer to one more request of a burst. */
  lemma BurstStep(cfg: Config, archive: Archive, key: string, current: nat, notBefore: nat, n: nat)
    requires ValidConfig(cfg) && ValidKey(key)
    requires Times(Lookup(archive.table, key)) == Burst(cfg.ar, cfg.capacity, Max(current, notBefore), n)
    ensures var (after, answer) := Consult(cfg, archive, Reserve(key, current, notBefore));
            && answer.Granted? && answer.reservation.scheduledAt
                == BatchStart(cfg.ar, Max(current, notBefore), BatchOf(n, cfg.capacity))
            && Times(Lookup(after.table, key)) == Burst(cfg.ar, cfg.capacity, Max(current, notBefore), n + 1)
  {
    var t := Max(current, notBefore);
    NextOfBurst(cfg.ar, cfg.capacity, t, n);
    BurstGrows(cfg.ar, cfg.capacity, t, n);
    var all, r := Lookup(archive.table, key), Consult(cfg, archive, Reserve(key, current, notBefore)).1.reservation;
    assert Times(all + [r]) == Times(all) + [r.scheduledAt];
  }

  /** Requests for one key that may all start at `t`: each is made or asks for a slot then, and neither later. */
  predicate IsBurst(requests: seq<Op>, key: string, t: nat) {
    forall i :: 0 <= i < |requests| ==>
      requests[i].Reserve? && requests[i].key == key && Max(requests[i].current, requests[i].notBefore) == t
  }

  lemma {:induction false} ArchiveOfBurst(cfg: Config, before: seq<Op>, requests: seq<Op>, key: string, t: nat)
    requires ValidConfig(cfg) && ValidKey(key)
    requires Steady(cfg.ar, before) && IsBurst(requests, key, t)
    requires Lookup(Recall(cfg, before).0.table, key) == []
    ensures Steady(cfg.ar, before + requests)
    ensures Times(Lookup(Recall(cfg, before + requests).0.table, key)) == Burst(cfg.ar, cfg.capacity, t, |requests|)
  {
    hide Recall, Consult, ValidConfig, ValidKey, Steady, Lookup, Burst;
    if requests == [] {
      assert before + requests == before;
      EmptyBurst(cfg, t);
    } else {
      var n := |requests| - 1;
      ArchiveOfBurst(cfg, before, requests[..n], key, t);
      var most, op := before + requests[..n], requests[n];
      assert before + requests == most + [op];
      RecallExtended(cfg, most, op);
      BurstStep(cfg, Recall(cfg, most).0, key, op.current, op.notBefore, n);
    }
  }

  /** The answers to the first operations of a run do not depend on what follows. */
  lemma {:induction false} RecallPrefix(cfg: Config, ops: seq<Op>, n: nat)
    requires ValidConfig(cfg) && Steady(cfg.ar, ops) && n <= |ops|
    ensures Steady(cfg.ar, ops[..n])
    ensures Recall(cfg, ops).1[..n] == Recall(cfg, ops[..n]).1
  {
    hide Consult;
    if n < |ops| {
      var m := |ops| - 1;
      RecallPrefix(cfg, ops[..m], n);
      assert ops[..m][..n] == ops[..n];
      assert Recall(cfg, ops).1[..m] == Recall(cfg, ops[..m]).1;
      assert Recall(cfg, ops).1[..n] == Recall(cfg, ops).1[..m][..n];
    } else {
      assert ops[..n] == ops;
    }
  }

  lemma EmptyBurst(cfg: Config, t: nat)
    requires ValidConfig(cfg)
    ensures Times([]) == Burst(cfg.ar, cfg.capacity, t, 0)
  {
  }

  /** A burst on a key with nothing outstanding is granted in full batches, each starting when the one
      before has left the window (ExactBatchStart: every `per` when exact). */
  lemma BurstSchedule(cfg: Config, before: seq<Op>, requests: seq<Op>, key: string, t: nat, i: nat)
    requires ValidConfig(cfg) && ValidKey(key) && i < |requests| && IsBurst(requests, key, t)
    requires Steady(cfg.ar, before) && Steady(cfg.ar, before + requests) && NoPeak(cfg.ar, Readings(before + requests))
    requires Outstanding(before, Run(cfg, before).1, key) == []
    ensures IsGrantedAt(Run(cfg, before + requests).1[|before| + i], BatchStart(cfg.ar, t, BatchOf(i, cfg.capacity)))
  {
    hide Run, Recall, Consult, Apply, Outstanding, NoPeak, Steady, ValidConfig, ValidKey, BatchStart, Burst, Max,
        IsBurst;
    var ops := before + requests;
    BurstPrefix(before, requests, i);
    FewerRequests(requests, key, t, i);
    AnswerAt(cfg, ops, |before| + i);
    BurstStart(cfg, before, ops, key);
    ArchiveOfBurst(cfg, before, requests[..i], key, t);
    BurstStep(cfg, Recall(cfg, before + requests[..i]).0, key, requests[i].current, requests[i].notBefore, i);
  }

  predicate IsGrantedAt(answer: Answer, t: nat) {
    answer.Granted? && answer.reservation.scheduledAt == t
  }

  lemma BurstPrefix(before: seq<Op>, requests: seq<Op>, i: nat)
    requires i < |requests|
    ensures var ops := before + requests;
            ops[..|before|] == before && ops[..|before| + i] == before + requests[..i]
                && ops[|before| + i] == requests[i]
  {
  }

  lemma FewerRequests(requests: seq<Op>, key: string, t: nat, i: nat)
    requires IsBurst(requests, key, t) && i < |requests|
    ensures IsBurst(requests[..i], key, t)
    ensures requests[i].Reserve? && requests[i].key == key && Max(requests[i].current, requests[i].notBefore) == t
  {
  }

  /** An answer of a run is the archive's answer after the operations before it. */
  lemma AnswerAt(cfg: Config, ops: seq<Op>, i: nat)
    requires ValidConfig(cfg) && Steady(cfg.ar, ops) && NoPeak(cfg.ar, Readings(ops)) && i < |ops|
    ensures Steady(cfg.ar, ops[..i]) && Ends(cfg.ar, ops[i])
    ensures Run(cfg, ops).1[i] == Consult(cfg, Recall(cfg, ops[..i]).0, ops[i]).1
  {
    hide Apply, Consult, Run, Recall, NoPeak;
    ForgettingIsInvisible(cfg, ops);
    RecallPrefix(cfg, ops, i + 1);
    RecallExtended(cfg, ops[..i], ops[i]);
    assert ops[..i + 1] == ops[..i] + [ops[i]];
    assert Recall(cfg, ops).1[i] == Recall(cfg, ops).1[..i + 1][i];
  }

  lemma BurstStart(cfg: Config, before: seq<Op>, ops: seq<Op>, key: string)
    requires ValidConfig(cfg) && Steady(cfg.ar, ops) && NoPeak(cfg.ar, Readings(ops))
    requires |before| <= |ops| && before == ops[..|before|]
    requires Steady(cfg.ar, before) && Outstanding(before, Run(cfg, before).1, key) == []
    ensures Lookup(Recall(cfg, before).0.table, key) == []
  {
    hide Apply, Consult, Run, Recall, Outstanding;
    assert forall j :: 0 <= j < |before| ==> Readings(before)[j] == Readings(ops)[j];
    ForgettingIsInvisible(cfg, before);
    ArchiveIsOutstanding(cfg, before, key);
  }
}
