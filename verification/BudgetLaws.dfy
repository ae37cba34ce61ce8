/** What whole runs of a budget say to its users: what happens to the list of a key, what a release
takes back, and what a snapshot says. */
module BudgetLaws {
  import opened RollingWindow
  import opened LegalityTests
  import opened Rounding
  import opened BudgetState
  import opened BudgetRuns

  // ---------------------------------------------------------------- exact budgets

  /** A budget whose times are whole ticks. */
  function Exactly(per: nat, capacity: nat): (cfg: Config)
    requires 0 < per && 0 < capacity
    ensures ValidConfig(cfg)
  {
    ExactIsSound(per);
    Config(Exact(per), capacity)
  }

  lemma EverySteady(per: nat, ops: seq<Op>)
    requires 0 < per
    ensures Steady(Exact(per), ops)
  {
  }

  ghost function RunOf(per: nat, capacity: nat, ops: seq<Op>): (r: (Book, seq<Answer>))
    requires 0 < per && 0 < capacity
    ensures |r.1| == |ops|
  {
    EverySteady(per, ops);
    Run(Exactly(per, capacity), ops)
  }

  /** No window is ever overfull in the run of `ops` on an exact budget. */
  ghost predicate KeepsCapacity(per: nat, capacity: nat, ops: seq<Op>)
    requires 0 < per && 0 < capacity
  {
    forall key :: WithinCapacity(Exact(per), capacity, Times(Outstanding(ops, RunOf(per, capacity, ops).1, key)))
  }

  predicate Touches(op: Op, key: string) {
    match op
    case Reserve(k, _, _) => k == key
    case Release(r, _) => r.key == key
    case Snapshot(k, _) => k == key
    case Cleanup(_) => false
  }

  /** What one more operation adds to a run, seen from a key. */
  lemma RunExtended(cfg: Config, ops: seq<Op>, op: Op, key: string)
    requires ValidConfig(cfg) && Steady(cfg.ar, ops) && Ends(cfg.ar, op)
    ensures Steady(cfg.ar, ops + [op])
    ensures var (book, answers) := Run(cfg, ops);
            var (after, answer) := Apply(cfg, book, op);
            var (held, left) := (Outstanding(ops, answers, key), Outstanding(ops + [op], answers + [answer], key));
            && Run(cfg, ops + [op]) == (after, answers + [answer])
            && left == (if op.Reserve? && op.key == key && answer.Granted? then held + [answer.reservation]
                        else if op.Release? && op.reservation.key == key then RemoveToken(held, op.reservation.token)
                        else held)
  {
    hide Earliest, View, MaybeCleanup, RemoveToken;
    var all := ops + [op];
    assert all[..|ops|] == ops && all[|ops|] == op;
    var (book, answers) := Run(cfg, ops);
    var answer := Apply(cfg, book, op).1;
    assert (answers + [answer])[..|ops|] == answers && (answers + [answer])[|ops|] == answer;
  }

  lemma PlainKey()
    ensures ValidKey("k")
  {
    assert !IsSpace("k"[0]);
  }

  /** How many times lie in the window ending at any real instant. */
  function CountAtInstant(per: nat, times: seq<nat>, w: real): nat {
    if times == [] then 0
    else (if w - per as real < times[0] as real <= w then 1 else 0) + CountAtInstant(per, times[1..], w)
  }

  lemma {:induction false} InstantIsWholeTick(per: nat, times: seq<nat>, w: real)
    ensures CountAtInstant(per, times, w) == Count(Exact(per), times, w.Floor)
  {
    if times != [] {
      InstantIsWholeTick(per, times[1..], w);
      assert w - per as real < times[0] as real <==> w.Floor - per < times[0];
    }
  }

  /** Windows that end between ticks, at any real instant, are within capacity too. */
  lemma CapacityAtEveryInstant(per: nat, capacity: nat, ops: seq<Op>, key: string, w: real)
    requires 0 < per && 0 < capacity && NoPeak(Exact(per), Readings(ops))
    ensures ValidConfig(Config(Exact(per), capacity))
    ensures CountAtInstant(per, Times(Outstanding(ops, Run(Config(Exact(per), capacity), ops).1, key)), w) <= capacity
  {
    ExactIsSound(per);
    var cfg := Config(Exact(per), capacity);
    CapacityOverWholeRuns(cfg, ops, key);
    InstantIsWholeTick(per, Times(Outstanding(ops, Run(cfg, ops).1, key)), w);
  }

  // ---------------------------------------------------------------- counting parts of a list

  lemma {:induction false} CountWithoutToken(ar: Arith, rs: seq<Reservation>, r: Reservation, nextToken: nat, w: int)
    requires r in rs && TokensRise(rs, nextToken)
    ensures Count(ar, Times(rs), w)
        == Count(ar, Times(RemoveToken(rs, r.token)), w) + if InWindow(ar, r.scheduledAt, w) then 1 else 0
  {
    assert Times(rs)[1..] == Times(rs[1..]);
    if rs[0].token != r.token {
      CountWithoutToken(ar, rs[1..], r, nextToken, w);
      var rest := RemoveToken(rs[1..], r.token);
      assert Times([rs[0]] + rest)[1..] == Times(rest);
    } else {
      assert rs[0] == r;
    }
  }

  /** Where one list has more members in a window than another, one of them is missing from the other. */
  lemma {:induction false} SomeoneMissing(ar: Arith, part: seq<Reservation>, rs: seq<Reservation>, nextToken: nat,
            w: int)
    returns (x: Reservation)
    requires TokensRise(rs, nextToken) && Count(ar, Times(part), w) > Count(ar, Times(rs), w)
    requires forall i, j :: 0 <= i < j < |part| ==> part[i].token != part[j].token
    ensures x in part && x !in rs && InWindow(ar, x.scheduledAt, w)
  {
    hide TokensRise, RemoveToken;
    var r := part[0];
    assert Times(part)[1..] == Times(part[1..]);
    if InWindow(ar, r.scheduledAt, w) && r !in rs {
      x := r;
    } else if r in rs {
      CountWithoutToken(ar, rs, r, nextToken, w);
      RemoveTokenRises(rs, r.token, nextToken);
      x := SomeoneMissing(ar, part[1..], RemoveToken(rs, r.token), nextToken, w);
      RemoveTokenMembers(rs, r.token);
    } else {
      x := SomeoneMissing(ar, part[1..], rs, nextToken, w);
    }
  }

  /** Different reservations out of a list are in no window more than the list is. */
  lemma CountOfPart(ar: Arith, part: seq<Reservation>, rs: seq<Reservation>, nextToken: nat, w: int)
    requires TokensRise(rs, nextToken) && forall i :: 0 <= i < |part| ==> part[i] in rs
    requires forall i, j :: 0 <= i < j < |part| ==> part[i].token != part[j].token
    ensures Count(ar, Times(part), w) <= Count(ar, Times(rs), w)
  {
    hide Count, TokensRise;
    if Count(ar, Times(part), w) > Count(ar, Times(rs), w) {
      var x := SomeoneMissing(ar, part, rs, nextToken, w);
      assert false;
    }
  }

  lemma {:induction false} AllInWindow(per: nat, times: seq<nat>, w: int)
    requires forall i :: 0 <= i < |times| ==> w - per < times[i] <= w
    ensures Count(Exact(per), times, w) == |times|
  {
    if times != [] {
      AllInWindow(per, times[1..], w);
    }
  }

  // ---------------------------------------------------------------- releases

  /** No operation hands out a token again. */
  lemma TokensMoveOn(cfg: Config, book: Book, op: Op)
    requires ValidConfig(cfg) && Ends(cfg.ar, op)
    ensures var (after, answer) := Apply(cfg, book, op);
            && book.nextToken <= after.nextToken
            && (answer.Granted? ==> op.Reserve? && answer.reservation.token == book.nextToken < after.nextToken)
  {
    hide Earliest, View, Sweep;
  }

  lemma {:induction false} OutstandingRises(cfg: Config, ops: seq<Op>, key: string)
    requires ValidConfig(cfg) && Steady(cfg.ar, ops)
    ensures TokensRise(Outstanding(ops, Run(cfg, ops).1, key), Run(cfg, ops).0.nextToken)
  {
    hide Apply, TokensRise, RemoveToken;
    if ops == [] {
      NoneRise(1);
    } else {
      var n := |ops| - 1;
      var op := ops[n];
      OutstandingRises(cfg, ops[..n], key);
      var (book, answers) := Run(cfg, ops[..n]);
      var (after, answer) := Apply(cfg, book, op);
      assert Run(cfg, ops).1[..n] == answers && Run(cfg, ops).1[n] == answer;
      TokensMoveOn(cfg, book, op);
      var held := Outstanding(ops[..n], answers, key);
      RisesLater(held, book.nextToken, after.nextToken);
      if op.Release? {
        RemoveTokenRises(held, op.reservation.token, after.nextToken);
      } else if op.Reserve? && answer.Granted? {
        RiseByOne(held, answer.reservation, after.nextToken);
      }
    }
  }

  /** An operation keeps what is listed, but for what it sweeps, prunes or releases. */
  lemma ListAfter(cfg: Config, book: Book, op: Op, key: string)
    requires ValidConfig(cfg) && Ends(cfg.ar, op)
    ensures var (before, after) := (Lookup(book.table, key), Lookup(Apply(cfg, book, op).0.table, key));
            var answer := Apply(cfg, book, op).1;
            && (op.Reserve? && op.key == key && answer.Granted? ==>
                  exists base :: (base == before || base == [])
                    && after == Live(base, cfg.ar.sub(op.current)) + [answer.reservation]
                    && answer.reservation.scheduledAt
                        == Earliest(cfg.ar, cfg.capacity, Times(Live(base, cfg.ar.sub(op.current))),
                                                                  Max(op.current, op.notBefore)))
            && (op.Snapshot? && op.key == key && ValidKey(key) ==>
                  exists base :: (base == before || base == []) && after == Live(base, cfg.ar.sub(op.current)))
            && (op.Release? && op.reservation.key == key ==>
                  exists base :: (base == before || base == []) && after == RemoveToken(base, op.reservation.token))
            && (!Touches(op, key) || answer.Refused? ==> after == before || after == [])
  {
    hide Earliest, View, Live, RemoveToken, ValidKey, Expired;
    var c := MaybeCleanup(cfg.ar, book, op.current);
    assert Lookup(c.table, key) == Lookup(book.table, key) || Lookup(c.table, key) == [];
    if op.Snapshot? && key !in c.table {
      LiveOfNone(cfg.ar.sub(op.current));
    }
    if op.Release? {
      ReleaseShape(cfg, book, op.reservation, op.current);
    }
  }

  lemma LiveOfNone(boundary: int)
    ensures Live([], boundary) == []
  {
  }

  /** What an operation takes off a list has expired or was released. */
  lemma MembersAfter(cfg: Config, book: Book, op: Op, key: string, x: Reservation)
    requires ValidConfig(cfg) && Ends(cfg.ar, op) && x in Lookup(book.table, key)
    ensures || x in Lookup(Apply(cfg, book, op).0.table, key)
            || x.scheduledAt <= cfg.ar.sub(op.current)
            || (op.Release? && op.reservation.key == key && op.reservation.token == x.token)
  {
    hide Earliest, View, Live, RemoveToken, ValidKey;
    var c := MaybeCleanup(cfg.ar, book, op.current);
    if x.scheduledAt > cfg.ar.sub(op.current) {
      assert Lookup(c.table, key) == Lookup(book.table, key)
          && Lookup(Sweep(cfg.ar, book.table, op.current), key) == Lookup(book.table, key);
      LiveMembers(Lookup(c.table, key), cfg.ar.sub(op.current));
      if op.Release? {
        ReleaseShape(cfg, book, op.reservation, op.current);
        RemoveTokenMembers(Lookup(c.table, key), op.reservation.token);
      }
    }
  }

  /** The tokens of every list the budget keeps rise. */
  lemma {:induction false} TableRises(cfg: Config, ops: seq<Op>, key: string)
    requires ValidConfig(cfg) && Steady(cfg.ar, ops)
    ensures TokensRise(Lookup(Run(cfg, ops).0.table, key), Run(cfg, ops).0.nextToken)
  {
    hide Apply, TokensRise, Lookup;
    if ops == [] {
      NoneListed(key);
      NoneRise(1);
    } else {
      var n := |ops| - 1;
      TableRises(cfg, ops[..n], key);
      ListRises(cfg, Run(cfg, ops[..n]).0, ops[n], key);
    }
  }

  lemma NoneListed(key: string)
    ensures Lookup(EMPTY_BOOK.table, key) == []
  {
  }

  lemma ListRises(cfg: Config, book: Book, op: Op, key: string)
    requires ValidConfig(cfg) && Ends(cfg.ar, op) && TokensRise(Lookup(book.table, key), book.nextToken)
    ensures TokensRise(Lookup(Apply(cfg, book, op).0.table, key), Apply(cfg, book, op).0.nextToken)
  {
    hide Apply, TokensRise, Lookup, Live, RemoveToken, Earliest, ValidKey;
    ListAfter(cfg, book, op, key);
    TokensMoveOn(cfg, book, op);
    var (before, next) := (Lookup(book.table, key), Apply(cfg, book, op).0.nextToken);
    NoneRise(book.nextToken);
    NoneRise(next);
    RisesLater(before, book.nextToken, next);
    var boundary := cfg.ar.sub(op.current);
    LiveRises(before, boundary, book.nextToken);
    LiveRises([], boundary, book.nextToken);
    LiveRises(before, boundary, next);
    LiveRises([], boundary, next);
    if op.Reserve? && op.key == key && Apply(cfg, book, op).1.Granted? {
      var r := Apply(cfg, book, op).1.reservation;
      RiseByOne(Live(before, boundary), r, next);
      RiseByOne(Live([], boundary), r, next);
    } else if op.Release? && op.reservation.key == key {
      RemoveTokenRises(before, op.reservation.token, next);
      RemoveTokenRises([], op.reservation.token, next);
    } else if Touches(op, key) {
      RefusedWhenBlank(cfg, book, op);
    }
  }

  lemma RefusedWhenBlank(cfg: Config, book: Book, op: Op)
    requires ValidConfig(cfg) && Ends(cfg.ar, op)
    ensures op.Reserve? ==>
        if ValidKey(op.key) then Apply(cfg, book, op).1.Granted? else Apply(cfg, book, op).1.Refused?
    ensures op.Snapshot? && !ValidKey(op.key) ==> Apply(cfg, book, op).1.Refused?
  {
    hide ReserveStep, SnapshotStep, ReleaseStep, CleanupStep, ValidKey;
  }

  lemma NoneRise(nextToken: nat)
    ensures TokensRise([], nextToken)
  {
  }

  lemma RiseByOne(rs: seq<Reservation>, r: Reservation, nextToken: nat)
    requires TokensRise(rs, r.token) && r.token < nextToken
    ensures TokensRise(rs + [r], nextToken)
  {
  }

  lemma {:induction false} RemovedIsGone(rs: seq<Reservation>, token: nat, nextToken: nat)
    requires TokensRise(rs, nextToken)
    ensures forall r :: r in RemoveToken(rs, token) <==> r in rs && r.token != token
  {
    hide TokensRise;
    if rs != [] {
      RisesTail(rs, nextToken);
      RemovedIsGone(rs[1..], token, nextToken);
      assert forall r :: r in rs <==> r == rs[0] || r in rs[1..];
      if rs[0].token != token {
        var rest := RemoveToken(rs[1..], token);
        assert forall r :: r in [rs[0]] + rest <==> r == rs[0] || r in rest;
      }
    }
  }

  /** Every list keeps its members, but for the one reservation that is released, or has wholly expired
      and been swept away. */
  ghost predicate OnlyLoses(ar: Arith, before: Book, after: Book, r: Reservation, current: nat) {
    forall key ::
      || (forall x :: x in Lookup(after.table, key) <==>
          x in Lookup(before.table, key) && !(key == r.key && x.token == r.token))
      || (Lookup(after.table, key) == [] && Expired(ar, Lookup(before.table, key), current))
  }

  /** Every list stays as it is, or has wholly expired and been swept away. */
  ghost predicate OnlySwept(ar: Arith, before: Book, after: Book, current: nat) {
    forall key ::
      || Lookup(after.table, key) == Lookup(before.table, key)
      || (Lookup(after.table, key) == [] && Expired(ar, Lookup(before.table, key), current))
  }

  /** Whatever came before, a release takes its own reservation and no other from the budget's lists,
      leaves each in the order of its tokens, and hands out no token; releasing it again takes nothing. */
  lemma ReleaseIsIdempotent(cfg: Config, ops: seq<Op>, r: Reservation, first: nat, second: nat)
    requires ValidConfig(cfg) && Steady(cfg.ar, ops)
    ensures var before := Run(cfg, ops).0;
            var once := ReleaseStep(cfg, before, r, first);
            var twice := ReleaseStep(cfg, once, r, second);
            && OnlyLoses(cfg.ar, before, once, r, first) && OnlySwept(cfg.ar, once, twice, second)
            && before.nextToken == once.nextToken == twice.nextToken
            && (forall key :: TokensRise(Lookup(once.table, key), once.nextToken))
            && !exists x :: x in Lookup(once.table, r.key) && x.token == r.token
  {
    hide Run, ReleaseStep, Steady, Lookup, TokensRise, Expired, MaybeCleanup;
    var before := Run(cfg, ops).0;
    var once := ReleaseStep(cfg, before, r, first);
    var swept := MaybeCleanup(cfg.ar, before, first);
    CountingSweeps(cfg.ar, before, first);
    ReleaseShape(cfg, before, r, first);
    forall key
      ensures TokensRise(Lookup(before.table, key), before.nextToken)
      ensures TokensRise(Lookup(swept.table, key), before.nextToken)
    {
      TableRises(cfg, ops, key);
      NoneRise(before.nextToken);
    }
    RemovedIsGone(Lookup(swept.table, r.key), r.token, before.nextToken);
    RemoveTokenRises(Lookup(swept.table, r.key), r.token, before.nextToken);
    RemoveFromNone(r.token);
    forall key
      ensures || (forall x :: x in Lookup(once.table, key) <==>
          x in Lookup(before.table, key) && !(key == r.key && x.token == r.token))
              || (Lookup(once.table, key) == [] && Expired(cfg.ar, Lookup(before.table, key), first))
    {
    }
    CountingSweeps(cfg.ar, once, second);
    ReleaseShape(cfg, once, r, second);
    RemoveAbsent(Lookup(once.table, r.key), r.token);
  }

  lemma CountingSweeps(ar: Arith, book: Book, current: nat)
    ensures OnlySwept(ar, book, MaybeCleanup(ar, book, current), current)
    ensures MaybeCleanup(ar, book, current).nextToken == book.nextToken
  {
    hide Expired;
  }

  lemma RemoveFromNone(token: nat)
    ensures RemoveToken([], token) == []
  {
  }

  // ---------------------------------------------------------------- snapshots

  lemma {:induction false} RetainedAreActiveOrQueued(ar: Arith, rs: seq<Reservation>, current: nat)
    requires forall r :: r in rs ==> r.scheduledAt > ar.sub(current)
    requires ar.sub(current) < current
    ensures Count(ar, Times(rs), current) + CountAfter(Times(rs), current) == |rs|
  {
    if rs != [] {
      RetainedAreActiveOrQueued(ar, rs[1..], current);
      assert Times(rs)[1..] == Times(rs[1..]);
    }
  }

  /** A snapshot partitions the retained reservations, never promises more than the capacity, and
      on a legal schedule says "available" exactly when no wait is needed, provided the rounded
      `current + per` serves as the exit point of `current`. */
  lemma SnapshotIsCoherent(cfg: Config, key: string, rs: seq<Reservation>, current: nat)
    requires ValidConfig(cfg) && cfg.ar.sub(current) < current
    requires WithinCapacity(cfg.ar, cfg.capacity, Times(rs))
    requires SumServes(cfg.ar, current)
    ensures var kept := Live(rs, cfg.ar.sub(current));
            var view := View(cfg, key, Times(kept), current);
            && view.active + view.queued == |kept|
            && view.active + view.available <= cfg.capacity
            && (view.available > 0 <==> view.nextAvailableIn == 0)
            && forall n: nat :: WithinCapacity(cfg.ar, cfg.capacity, Times(kept) + Copies(current, n)) <==>
                n <= view.available
  {
    var kept := Live(rs, cfg.ar.sub(current));
    var view := View(cfg, key, Times(kept), current);
    LiveMembers(rs, cfg.ar.sub(current));
    RetainedAreActiveOrQueued(cfg.ar, kept, current);
    PruningKeepsCapacity(cfg, rs, cfg.ar.sub(current));
    forall n: nat
      ensures WithinCapacity(cfg.ar, cfg.capacity, Times(kept) + Copies(current, n)) <==> n <= view.available
    {
      AvailableIsLargest(cfg.ar, cfg.capacity, Times(kept), current, n);
    }
    CountConcat(cfg.ar, Times(kept), Copies(current, view.available), current);
    CountCopies(cfg.ar, current, view.available, current);
    assert Count(cfg.ar, Times(kept) + Copies(current, view.available), current) <= cfg.capacity;
    TestsAgree(cfg.ar, cfg.capacity, Times(kept), current);
  }
}
