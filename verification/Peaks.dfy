/** When exactly a budget keeps its capacity over whole runs: the clock readings decide. */
module Peaks {
  import opened RollingWindow
  import opened Rounding
  import opened BudgetState
  import opened BudgetRuns
  import opened BudgetLaws

  /** At `j`, what was granted for the time of `i` has left the window, and `k` goes back before `j`. */
  predicate IsPeak(per: nat, cs: seq<nat>, i: nat, j: nat, k: nat) {
    i < j < k < |cs| && cs[i] + per <= cs[j] && cs[k] < cs[j]
  }

  /** The operations that work with a reading before `t`. */
  function Before(cs: seq<nat>, t: nat): set<nat> {
    set n: nat | n < |cs| && cs[n] < t
  }

  /** A peak with more operations before its time than the budget may grant in one window. */
  predicate Overfills(per: nat, capacity: nat, cs: seq<nat>, i: nat, j: nat, k: nat) {
    IsPeak(per, cs, i, j, k) && |Before(cs, cs[j])| > capacity
  }

  lemma BeforeGrows(cs: seq<nat>, c: nat, t: nat)
    ensures Before(cs + [c], t) == if c < t then Before(cs, t) + {|cs|} else Before(cs, t)
    ensures |Before(cs + [c], t)| == |Before(cs, t)| + if c < t then 1 else 0
  {
    var all := cs + [c];
    assert forall n :: n in Before(all, t) <==> n in Before(cs, t) || (n == |cs| && c < t);
    assert Before(all, t) == if c < t then Before(cs, t) + {|cs|} else Before(cs, t);
  }

  lemma LongerReadings(per: nat, capacity: nat, cs: seq<nat>, c: nat, i: nat, j: nat, k: nat)
    requires Overfills(per, capacity, cs, i, j, k)
    ensures Overfills(per, capacity, cs + [c], i, j, k)
  {
    BeforeGrows(cs, c, cs[j]);
  }

  // ---------------------------------------------------------------- an overfull window needs a peak

  /** `x` was granted by an operation with a reading at or before its slot. */
  predicate Born(cs: seq<nat>, x: Reservation) {
    exists i :: 0 <= i < |cs| && cs[i] <= x.scheduledAt
  }

  /** A later operation worked with a reading by which `x` was out of the window. */
  predicate Forgotten(per: nat, cs: seq<nat>, x: Reservation) {
    exists i, j :: 0 <= i < j < |cs| && cs[i] <= x.scheduledAt && x.scheduledAt + per <= cs[j]
  }

  /** What is outstanding is listed by the budget or was forgotten. */
  ghost predicate Remembers(per: nat, cs: seq<nat>, listed: seq<Reservation>, out: seq<Reservation>) {
    forall x :: x in out ==> Born(cs, x) && (x in listed || Forgotten(per, cs, x))
  }

  lemma StillBorn(per: nat, cs: seq<nat>, c: nat, x: Reservation)
    ensures Born(cs, x) || c <= x.scheduledAt ==> Born(cs + [c], x)
    ensures Forgotten(per, cs, x) ==> Forgotten(per, cs + [c], x)
    ensures Born(cs, x) && x.scheduledAt + per <= c ==> Forgotten(per, cs + [c], x)
  {
    var all := cs + [c];
    assert all[|cs|] == c && forall i :: 0 <= i < |cs| ==> all[i] == cs[i];
    if i :| 0 <= i < |cs| && cs[i] <= x.scheduledAt {
      assert all[i] == cs[i];
    }
  }

  /** A granted reservation is listed, at or after the reading of its operation. */
  lemma GrantIsListed(cfg: Config, book: Book, op: Op)
    requires ValidConfig(cfg) && Ends(cfg.ar, op)
    ensures var (after, answer) := Apply(cfg, book, op);
            answer.Granted? ==>
              && op.Reserve? && answer.reservation in Lookup(after.table, op.key)
              && answer.reservation.scheduledAt >= op.current
  {
    hide Earliest, View, MaybeCleanup, Live, ValidKey;
  }

  lemma RemembersStep(per: nat, capacity: nat, ops: seq<Op>, op: Op, key: string, x: Reservation)
    requires 0 < per && 0 < capacity
    requires var (book, answers) := RunOf(per, capacity, ops);
             Remembers(per, Readings(ops), Lookup(book.table, key), Outstanding(ops, answers, key))
    requires var (after, all) := RunOf(per, capacity, ops + [op]);
             x in Outstanding(ops + [op], all, key)
    ensures var (after, all) := RunOf(per, capacity, ops + [op]);
            && Born(Readings(ops) + [op.current], x)
            && (x in Lookup(after.table, key) || Forgotten(per, Readings(ops) + [op.current], x))
  {
    hide Run, Apply, Lookup, RemoveToken, Born, Forgotten, TokensRise, Outstanding, Steady;
    var cfg, cs := Exactly(per, capacity), Readings(ops);
    EverySteady(per, ops);
    var (book, answers) := Run(cfg, ops);
    var (after, answer) := Apply(cfg, book, op);
    var held := Outstanding(ops, answers, key);
    RunExtended(cfg, ops, op, key);
    OutstandingRises(cfg, ops, key);
    StillBorn(per, cs, op.current, x);
    GrantIsListed(cfg, book, op);
    if op.Release? {
      RemovedIsGone(held, op.reservation.token, book.nextToken);
    }
    if x in held && x in Lookup(book.table, key) {
      MembersAfter(cfg, book, op, key, x);
    }
  }

  lemma {:induction false} AlwaysRemembers(per: nat, capacity: nat, ops: seq<Op>, key: string)
    requires 0 < per && 0 < capacity
    ensures var (book, answers) := RunOf(per, capacity, ops);
            Remembers(per, Readings(ops), Lookup(book.table, key), Outstanding(ops, answers, key))
  {
    if ops == [] {
    } else {
      hide RunOf, Outstanding, Lookup, Born, Forgotten;
      var n := |ops| - 1;
      AlwaysRemembers(per, capacity, ops[..n], key);
      assert ops[..n] + [ops[n]] == ops && Readings(ops) == Readings(ops[..n]) + [ops[n].current];
      var (book, answers) := RunOf(per, capacity, ops);
      forall x | x in Outstanding(ops, answers, key)
        ensures Born(Readings(ops), x) && (x in Lookup(book.table, key) || Forgotten(per, Readings(ops), x))
      {
        RemembersStep(per, capacity, ops[..n], ops[n], key, x);
      }
    }
  }

  /** What is outstanding in a window that ends before `t` was granted at readings before `t`. */
  lemma {:induction false} OutstandingIsBefore(per: nat, capacity: nat, ops: seq<Op>, key: string, w: int, t: nat)
    requires 0 < per && 0 < capacity && w < t
    ensures Count(Exact(per), Times(Outstanding(ops, RunOf(per, capacity, ops).1, key)), w)
        <= |Before(Readings(ops), t)|
  {
    if ops == [] {
    } else {
      hide Run, Apply, Outstanding, Count, Before, Steady, Lookup;
      var cfg, n := Exactly(per, capacity), |ops| - 1;
      var most, op := ops[..n], ops[n];
      OutstandingIsBefore(per, capacity, most, key, w, t);
      assert most + [op] == ops && Readings(ops) == Readings(most) + [op.current];
      EverySteady(per, most);
      var (book, answers) := Run(cfg, most);
      var held := Outstanding(most, answers, key);
      RunExtended(cfg, most, op, key);
      GrantIsListed(cfg, book, op);
      BeforeGrows(Readings(most), op.current, t);
      if op.Release? {
        CountRemove(Exact(per), held, op.reservation.token, w);
      } else if op.Reserve? && Apply(cfg, book, op).1.Granted? {
        CountGranted(Exact(per), held, Apply(cfg, book, op).1.reservation, w);
      }
    }
  }

  lemma CountGranted(ar: Arith, rs: seq<Reservation>, r: Reservation, w: int)
    ensures Count(ar, Times(rs + [r]), w) == Count(ar, Times(rs), w) + if InWindow(ar, r.scheduledAt, w) then 1 else 0
  {
    assert Times(rs + [r]) == Times(rs) + [r.scheduledAt];
    CountConcat(ar, Times(rs), [r.scheduledAt], w);
  }

  /** An overfull window in a run shows a peak in its readings. */
  lemma {:induction false} PeakBehind(per: nat, capacity: nat, ops: seq<Op>, key: string, w: int)
    returns (i: nat, j: nat, k: nat)
    requires 0 < per && 0 < capacity
    requires Count(Exact(per), Times(Outstanding(ops, RunOf(per, capacity, ops).1, key)), w) > capacity
    ensures Overfills(per, capacity, Readings(ops), i, j, k)
  {
    hide RunOf, Outstanding, Count, Overfills;
    if ops == [] {
      NoneOutstanding(per, capacity, key, w);
    } else {
      var n := |ops| - 1;
      assert ops[..n] + [ops[n]] == ops && Readings(ops) == Readings(ops[..n]) + [ops[n].current];
      if Count(Exact(per), Times(Outstanding(ops[..n], RunOf(per, capacity, ops[..n]).1, key)), w) > capacity {
        i, j, k := PeakBehind(per, capacity, ops[..n], key, w);
        LongerReadings(per, capacity, Readings(ops[..n]), ops[n].current, i, j, k);
      } else {
        i, j := FirstOverfull(per, capacity, ops[..n], ops[n], key, w);
        k := n;
      }
    }
  }

  lemma NoneOutstanding(per: nat, capacity: nat, key: string, w: int)
    requires 0 < per && 0 < capacity
    ensures Count(Exact(per), Times(Outstanding([], RunOf(per, capacity, []).1, key)), w) == 0
  {
  }

  /** The operation that overfills a window is granted a slot in it and does not see one of the
      reservations there: that one was forgotten before. */
  lemma FirstOverfull(per: nat, capacity: nat, ops: seq<Op>, op: Op, key: string, w: int) returns (i: nat, j: nat)
    requires 0 < per && 0 < capacity
    requires Count(Exact(per), Times(Outstanding(ops, RunOf(per, capacity, ops).1, key)), w) <= capacity
    requires Count(Exact(per), Times(Outstanding(ops + [op], RunOf(per, capacity, ops + [op]).1, key)), w) > capacity
    ensures Overfills(per, capacity, Readings(ops) + [op.current], i, j, |ops|)
  {
    hide Run, Apply, Outstanding, Count, Steady, Lookup, Remembers, TokensRise, Before, Born;
    var cfg, cs := Exactly(per, capacity), Readings(ops);
    EverySteady(per, ops);
    EverySteady(per, ops + [op]);
    var (book, answers) := Run(cfg, ops);
    var (after, answer) := Apply(cfg, book, op);
    var held, now := Outstanding(ops, answers, key), Outstanding(ops + [op], answers + [answer], key);
    RunExtended(cfg, ops, op, key);
    if op.Release? {
      CountRemove(Exact(per), held, op.reservation.token, w);
    }
    GrantIsListed(cfg, book, op);
    var r := answer.reservation;
    CountGranted(Exact(per), held, r, w);
    assert r.scheduledAt <= w && op.current <= r.scheduledAt;
    var x := MissingMember(per, capacity, ops + [op], key, w);
    AlwaysRemembers(per, capacity, ops, key);
    IsRemembered(per, cs, Lookup(book.table, key), held, x);
    if x in Lookup(book.table, key) {
      MembersAfter(cfg, book, op, key, x);
    }
    i, j :| 0 <= i < j < |cs| && cs[i] <= x.scheduledAt && x.scheduledAt + per <= cs[j];
    assert Readings(ops + [op]) == cs + [op.current];
    OutstandingIsBefore(per, capacity, ops + [op], key, w, cs[j]);
  }

  lemma IsRemembered(per: nat, cs: seq<nat>, listed: seq<Reservation>, out: seq<Reservation>, x: Reservation)
    requires Remembers(per, cs, listed, out) && x in out
    ensures x in listed || Forgotten(per, cs, x)
  {
  }

  /** An overfull window has an outstanding reservation that the budget does not list. */
  lemma MissingMember(per: nat, capacity: nat, ops: seq<Op>, key: string, w: int) returns (x: Reservation)
    requires 0 < per && 0 < capacity
    requires Count(Exact(per), Times(Outstanding(ops, RunOf(per, capacity, ops).1, key)), w) > capacity
    ensures var (book, answers) := RunOf(per, capacity, ops);
            x in Outstanding(ops, answers, key) && x !in Lookup(book.table, key)
                && InWindow(Exact(per), x.scheduledAt, w)
  {
    hide Run, Outstanding, Count, Steady, Lookup;
    var cfg := Exactly(per, capacity);
    EverySteady(per, ops);
    OutstandingRises(cfg, ops, key);
    TableRises(cfg, ops, key);
    RetainedWithinCapacity(cfg, ops);
    var (book, answers) := Run(cfg, ops);
    assert WithinCapacity(cfg.ar, capacity, Times(Lookup(book.table, key)));
    x := SomeoneMissing(cfg.ar, Outstanding(ops, answers, key), Lookup(book.table, key), book.nextToken, w);
  }

  // ---------------------------------------------------------------- a peak overfills a window

  /** Operation `n` of the run that shows a peak: `picks` reserve slots in the last window before the
      reading of `j`, which prunes the first of them. */
  function PickOp(per: nat, cs: seq<nat>, picks: set<nat>, j: nat, n: nat): (op: Op)
    requires n < |cs| && j < |cs| && per <= cs[j]
    ensures op.current == cs[n]
  {
    if n == j then Snapshot("k", cs[n])
    else if n in picks then Reserve("k", cs[n], cs[j] - per)
    else Cleanup(cs[n])
  }

  function PickRun(per: nat, cs: seq<nat>, picks: set<nat>, j: nat, n: nat): (ops: seq<Op>)
    requires n <= |cs| && j < |cs| && per <= cs[j]
    ensures |ops| == n && forall m :: 0 <= m < n ==> ops[m].current == cs[m]
  {
    if n == 0 then [] else PickRun(per, cs, picks, j, n - 1) + [PickOp(per, cs, picks, j, n - 1)]
  }

  /** How many picks come before `n`. */
  function Taken(picks: set<nat>, n: nat): nat {
    |set m | m in picks && m < n|
  }

  lemma TakenNext(picks: set<nat>, n: nat)
    ensures Taken(picks, n + 1) == Taken(picks, n) + if n in picks then 1 else 0
  {
    var now, next := set m | m in picks && m < n, set m | m in picks && m < n + 1;
    assert next == if n in picks then now + {n} else now;
  }

  lemma TakenBefore(picks: set<nat>, n: nat, k: nat)
    requires n in picks && k in picks
    ensures Taken(picks, n) <= |picks| - if n < k then 2 else 1
  {
    var now := set m | m in picks && m < n;
    SmallerSet(now, picks - (if n < k then {n, k} else {n}));
    assert |picks - {n}| == |picks| - 1;
    assert n < k ==> picks - {n, k} == picks - {n} - {k};
  }

  lemma {:induction false} SmallerSet(a: set<nat>, b: set<nat>)
    requires a <= b
    ensures |a| <= |b|
  {
    if x :| x in a {
      SmallerSet(a - {x}, b - {x});
    }
  }

  lemma AllTaken(picks: set<nat>, n: nat)
    requires forall m :: m in picks ==> m < n
    ensures Taken(picks, n) == |picks|
  {
    assert (set m | m in picks && m < n) == picks;
  }

  /** Out of a set with `i` and `k`, one of the given size that has both. */
  lemma {:induction false} SomeOf(all: set<nat>, i: nat, k: nat, size: nat) returns (some: set<nat>)
    requires i in all && k in all && i != k && 2 <= size <= |all|
    ensures some <= all && i in some && k in some && |some| == size
    decreases |all|
  {
    some := all;
    if size < |all| {
      assert |all - {i} - {k}| == |all| - 2 > 0;
      var x :| x in all - {i} - {k};
      some := SomeOf(all - {x}, i, k, size);
    }
  }

  /** What the run has made of its key after `n` operations: each pick has a slot in the window, and
      the list is one short of them from the peak on. */
  ghost predicate PickProgress(per: nat, cs: seq<nat>, picks: set<nat>, i: nat, j: nat, n: nat,
          listed: seq<Reservation>, out: seq<Reservation>)
    requires j < |cs|
  {
    && |listed| <= Taken(picks, n) - (if n > j then 1 else 0)
    && |Live(listed, cs[j] - per)| <= Taken(picks, n) - (if n > i then 1 else 0)
    && |out| == Taken(picks, n)
    && forall r :: r in out ==> cs[j] - per <= r.scheduledAt < cs[j]
  }

  ghost predicate Picks(per: nat, capacity: nat, cs: seq<nat>, picks: set<nat>, i: nat, j: nat, k: nat) {
    && IsPeak(per, cs, i, j, k) && i in picks && k in picks && |picks| == capacity + 1
    && forall n :: n in picks ==> n < |cs| && cs[n] < cs[j]
  }

  lemma {:induction false} LiveIsShorter(rs: seq<Reservation>, a: int)
    ensures |Live(rs, a)| <= |rs|
  {
    if rs != [] {
      LiveIsShorter(rs[1..], a);
    }
  }

  lemma {:induction false} LiveTwice(rs: seq<Reservation>, a: int, b: int)
    ensures |Live(Live(rs, b), a)| <= |Live(rs, a)|
  {
    if rs != [] {
      LiveTwice(rs[1..], a, b);
      LiveConcat(if rs[0].scheduledAt > b then [rs[0]] else [], Live(rs[1..], b), a);
    }
  }

  lemma {:induction false} CountAtMost(ar: Arith, times: seq<nat>, w: int)
    ensures Count(ar, times, w) <= |times|
  {
    if times != [] {
      CountAtMost(ar, times[1..], w);
    }
  }

  /** With fewer reservations than the capacity any slot is legal. */
  lemma FewAreLegal(cfg: Config, rs: seq<Reservation>, from: nat)
    requires ValidConfig(cfg) && |rs| < cfg.capacity
    ensures Earliest(cfg.ar, cfg.capacity, Times(rs), from) == from
  {
    forall w ensures Count(cfg.ar, Times(rs), w) < cfg.capacity {
      CountAtMost(cfg.ar, Times(rs), w);
    }
    assert LegalSlot(cfg.ar, cfg.capacity, Times(rs), from);
  }

  /** What one operation of the run does to the list, given what it may do at all. */
  lemma PickStep(per: nat, capacity: nat, cs: seq<nat>, picks: set<nat>, i: nat, j: nat, k: nat, n: nat,
          base: seq<Reservation>, out: seq<Reservation>, r: Reservation)
    requires 0 < per && 0 < capacity && Picks(per, capacity, cs, picks, i, j, k) && n < |cs|
    requires PickProgress(per, cs, picks, i, j, n, base, out)
    requires n in picks && (|Live(base, cs[n] - per)| < capacity ==> r.scheduledAt == Max(cs[n], cs[j] - per))
    ensures PickProgress(per, cs, picks, i, j, n + 1, Live(base, cs[n] - per) + [r], out + [r])
  {
    hide Live, Taken;
    TakenNext(picks, n);
    TakenBefore(picks, n, k);
    LiveIsShorter(base, cs[n] - per);
    LiveTwice(base, cs[j] - per, cs[n] - per);
    LiveConcat(Live(base, cs[n] - per), [r], cs[j] - per);
    LiveOfOne(r, cs[j] - per);
  }

  lemma LiveOfOne(r: Reservation, a: int)
    ensures Live([r], a) == if r.scheduledAt > a then [r] else []
  {
  }

  /** The list may only get shorter at an operation that reserves nothing, and the peak prunes it. */
  lemma PassStep(per: nat, capacity: nat, cs: seq<nat>, picks: set<nat>, i: nat, j: nat, k: nat, n: nat,
          base: seq<Reservation>, out: seq<Reservation>, after: seq<Reservation>)
    requires 0 < per && 0 < capacity && Picks(per, capacity, cs, picks, i, j, k) && n < |cs|
    requires PickProgress(per, cs, picks, i, j, n, base, out) && n !in picks
    requires after == base || after == Live(base, cs[n] - per)
    requires n == j ==> after == Live(base, cs[n] - per)
    ensures PickProgress(per, cs, picks, i, j, n + 1, after, out)
  {
    hide Live, Taken;
    TakenNext(picks, n);
    LiveIsShorter(base, cs[n] - per);
    LiveTwice(base, cs[j] - per, cs[n] - per);
  }

  lemma NothingListed(per: nat, cs: seq<nat>, picks: set<nat>, i: nat, j: nat, n: nat, listed: seq<Reservation>,
            out: seq<Reservation>)
    requires j < |cs| && PickProgress(per, cs, picks, i, j, n, listed, out)
    ensures PickProgress(per, cs, picks, i, j, n, [], out)
  {
    LiveIsShorter([], cs[j] - per);
  }

  lemma PickRunStep(per: nat, capacity: nat, cs: seq<nat>, picks: set<nat>, i: nat, j: nat, k: nat, n: nat,
            ops: seq<Op>)
    requires 0 < per && 0 < capacity && Picks(per, capacity, cs, picks, i, j, k) && n < |cs|
    requires var (book, answers) := RunOf(per, capacity, ops);
             PickProgress(per, cs, picks, i, j, n, Lookup(book.table, "k"), Outstanding(ops, answers, "k"))
    ensures var all := ops + [PickOp(per, cs, picks, j, n)];
            var (book, answers) := RunOf(per, capacity, all);
            PickProgress(per, cs, picks, i, j, n + 1, Lookup(book.table, "k"), Outstanding(all, answers, "k"))
  {
    hide Run, Apply, Outstanding, PickProgress, Lookup, Live, Steady, ValidKey;
    var cfg, op := Exactly(per, capacity), PickOp(per, cs, picks, j, n);
    EverySteady(per, ops);
    EverySteady(per, ops + [op]);
    PlainKey();
    var (book, answers) := Run(cfg, ops);
    var (after, answer) := Apply(cfg, book, op);
    var (before, out) := (Lookup(book.table, "k"), Outstanding(ops, answers, "k"));
    RunExtended(cfg, ops, op, "k");
    ListAfter(cfg, book, op, "k");
    RefusedWhenBlank(cfg, book, op);
    NothingListed(per, cs, picks, i, j, n, before, out);
    if n in picks {
      var base :| (base == before || base == [])
        && Lookup(after.table, "k") == Live(base, cs[n] - per) + [answer.reservation]
        && answer.reservation.scheduledAt
            == Earliest(cfg.ar, capacity, Times(Live(base, cs[n] - per)), Max(cs[n], cs[j] - per));
      if |Live(base, cs[n] - per)| < capacity {
        FewAreLegal(cfg, Live(base, cs[n] - per), Max(cs[n], cs[j] - per));
      }
      PickStep(per, capacity, cs, picks, i, j, k, n, base, out, answer.reservation);
    } else if n == j {
      var base :| (base == before || base == []) && Lookup(after.table, "k") == Live(base, cs[n] - per);
      PassStep(per, capacity, cs, picks, i, j, k, n, base, out, Lookup(after.table, "k"));
    } else {
      PassStep(per, capacity, cs, picks, i, j, k, n, Lookup(after.table, "k"), out, Lookup(after.table, "k"));
    }
  }

  lemma {:induction false} PickRunSoFar(per: nat, capacity: nat, cs: seq<nat>, picks: set<nat>, i: nat, j: nat,
            k: nat, n: nat)
    requires 0 < per && 0 < capacity && Picks(per, capacity, cs, picks, i, j, k) && n <= |cs|
    ensures var ops := PickRun(per, cs, picks, j, n);
            var (book, answers) := RunOf(per, capacity, ops);
            PickProgress(per, cs, picks, i, j, n, Lookup(book.table, "k"), Outstanding(ops, answers, "k"))
  {
    hide RunOf, Outstanding, PickProgress, PickOp, Lookup, Picks;
    assert per <= cs[j] by {
      PeakIsLate(per, capacity, cs, picks, i, j, k);
    }
    if n == 0 {
      PickStart(per, capacity, cs, picks, i, j);
    } else {
      PickRunSoFar(per, capacity, cs, picks, i, j, k, n - 1);
      PickRunStep(per, capacity, cs, picks, i, j, k, n - 1, PickRun(per, cs, picks, j, n - 1));
    }
  }

  lemma PeakIsLate(per: nat, capacity: nat, cs: seq<nat>, picks: set<nat>, i: nat, j: nat, k: nat)
    requires Picks(per, capacity, cs, picks, i, j, k)
    ensures j < |cs| && per <= cs[j]
  {
  }

  lemma PickStart(per: nat, capacity: nat, cs: seq<nat>, picks: set<nat>, i: nat, j: nat)
    requires 0 < per && 0 < capacity && j < |cs|
    ensures PickProgress(per, cs, picks, i, j, 0, Lookup(RunOf(per, capacity, []).0.table, "k"),
                         Outstanding([], RunOf(per, capacity, []).1, "k"))
  {
  }

  /** A peak with enough operations before its time overfills a window of some run. */
  lemma PeakBreaksCapacity(per: nat, capacity: nat, cs: seq<nat>, i: nat, j: nat, k: nat) returns (ops: seq<Op>)
    requires 0 < per && 0 < capacity && Overfills(per, capacity, cs, i, j, k)
    ensures Readings(ops) == cs && !KeepsCapacity(per, capacity, ops)
  {
    hide RunOf, Outstanding, Lookup, Count, Taken, PickRun;
    var picks := SomeOf(Before(cs, cs[j]), i, k, capacity + 1);
    ops := PickRun(per, cs, picks, j, |cs|);
    PickRunSoFar(per, capacity, cs, picks, i, j, k, |cs|);
    AllTaken(picks, |cs|);
    var out := Outstanding(ops, RunOf(per, capacity, ops).1, "k");
    assert forall m :: 0 <= m < |out| ==> out[m] in out;
    AllInWindow(per, Times(out), cs[j] - 1);
    assert Count(Exact(per), Times(out), cs[j] - 1) > capacity;
  }

  /** An exact budget keeps capacity over every run with the readings `cs`, whatever the operations,
      exactly when the readings have no peak, for its period, that more operations than its capacity
      come before. */
  lemma CapacityIffNoPeak(per: nat, capacity: nat, cs: seq<nat>)
    requires 0 < per && 0 < capacity
    ensures (forall i, j, k :: !Overfills(per, capacity, cs, i, j, k))
       <==> forall ops :: Readings(ops) == cs ==> KeepsCapacity(per, capacity, ops)
  {
    hide Overfills, RunOf, Outstanding, Count;
    if i, j, k :| Overfills(per, capacity, cs, i, j, k) {
      var ops := PeakBreaksCapacity(per, capacity, cs, i, j, k);
    } else {
      forall ops | Readings(ops) == cs ensures KeepsCapacity(per, capacity, ops) {
        if key, w :| Count(Exact(per), Times(Outstanding(ops, RunOf(per, capacity, ops).1, key)), w) > capacity {
          var i, j, k := PeakBehind(per, capacity, ops, key, w);
        }
      }
    }
  }
}
