/** What the answers of a budget mean: the slot a reservation gets, what a snapshot counts, and which keys a
sweep drops. */
module BudgetAnswers {
  import opened RollingWindow
  import opened LegalityTests
  import opened BudgetState
  import opened BudgetRuns
  import opened BudgetLaws

  // ---------------------------------------------------------------- slots

  /** The first time from `from` on at which one more reservation keeps every window within capacity. */
  ghost predicate IsFirstFit(cfg: Config, rs: seq<Reservation>, from: nat, slot: nat) {
    && from <= slot && WithinCapacity(cfg.ar, cfg.capacity, Times(rs) + [slot])
    && forall t: nat :: from <= t < slot ==> !WithinCapacity(cfg.ar, cfg.capacity, Times(rs) + [t])
  }

  lemma EarliestIsFirstFit(cfg: Config, rs: seq<Reservation>, from: nat)
    requires ValidConfig(cfg) && WithinCapacity(cfg.ar, cfg.capacity, Times(rs))
    ensures IsFirstFit(cfg, rs, from, Earliest(cfg.ar, cfg.capacity, Times(rs), from))
  {
    hide WithinCapacity, LegalSlot;
    forall t: nat
      ensures LegalSlot(cfg.ar, cfg.capacity, Times(rs), t) <==> WithinCapacity(cfg.ar, cfg.capacity, Times(rs) + [t])
    {
      LegalIffCapacityKept(cfg.ar, cfg.capacity, Times(rs), t);
    }
  }

  /** The reservations of a key that have not left the window that ends at `current`, in their order. */
  ghost predicate IsRetained(ar: Arith, rs: seq<Reservation>, kept: seq<Reservation>, current: nat, nextToken: nat) {
    && (forall r :: r in kept <==> r in rs && r.scheduledAt > ar.sub(current))
    && TokensRise(kept, nextToken)
  }

  /** What a counted operation finds of a key, whether it sweeps or not. */
  lemma FindsRetained(cfg: Config, book: Book, key: string, current: nat)
    requires TokensRise(Lookup(book.table, key), book.nextToken)
    ensures var kept := Live(Lookup(MaybeCleanup(cfg.ar, book, current).table, key), cfg.ar.sub(current));
            && IsRetained(cfg.ar, Lookup(book.table, key), kept, current, book.nextToken)
            && kept == Live(Lookup(book.table, key), cfg.ar.sub(current))
  {
    hide TokensRise, Live;
    var rs, boundary := Lookup(book.table, key), cfg.ar.sub(current);
    LiveMembers(rs, boundary);
    LiveRises(rs, boundary, book.nextToken);
    if Lookup(MaybeCleanup(cfg.ar, book, current).table, key) != rs {
      LiveNone(rs, boundary);
      LiveOfNone(boundary);
    }
  }

  /** A reservation takes a new token and the first slot from its reading and its requested time on that
      fits in with what is retained of its key, and is listed after that. */
  lemma ReservationIsFirstFit(cfg: Config, ops: seq<Op>, key: string, current: nat, notBefore: nat)
    requires ValidConfig(cfg) && Steady(cfg.ar, ops)
    ensures var before := Run(cfg, ops).0;
            var (after, r) := ReserveStep(cfg, before, key, current, notBefore);
            var listed := Lookup(after.table, key);
            && r.key == key && r.token == before.nextToken && after.nextToken == before.nextToken + 1
            && listed != [] && listed[|listed| - 1] == r
            && var kept := listed[..|listed| - 1];
               && IsRetained(cfg.ar, Lookup(before.table, key), kept, current, before.nextToken)
               && IsFirstFit(cfg, kept, if notBefore > current then notBefore else current, r.scheduledAt)
  {
    hide Run, Earliest, IsFirstFit, IsRetained, WithinCapacity, TokensRise, Live;
    var before := Run(cfg, ops).0;
    TableRises(cfg, ops, key);
    FindsRetained(cfg, before, key, current);
    RetainedWithinCapacity(cfg, ops);
    assert WithinCapacity(cfg.ar, cfg.capacity, Times(Lookup(before.table, key)));
    PruningKeepsCapacity(cfg, Lookup(before.table, key), cfg.ar.sub(current));
    EarliestIsFirstFit(cfg, Live(Lookup(before.table, key), cfg.ar.sub(current)), Max(current, notBefore));
  }

  // ---------------------------------------------------------------- snapshots

  /** How many of the reservations have begun by `t`. */
  function BegunBy(rs: seq<Reservation>, t: nat): nat {
    if rs == [] then 0 else (if rs[0].scheduledAt <= t then 1 else 0) + BegunBy(rs[1..], t)
  }

  lemma {:induction false} ActiveAndQueuedAre(ar: Arith, rs: seq<Reservation>, current: nat)
    requires forall r :: r in rs ==> r.scheduledAt > ar.sub(current)
    ensures Count(ar, Times(rs), current) == BegunBy(rs, current)
    ensures CountAfter(Times(rs), current) == |rs| - BegunBy(rs, current)
  {
    if rs != [] {
      ActiveAndQueuedAre(ar, rs[1..], current);
      assert Times(rs)[1..] == Times(rs[1..]);
    }
  }

  /** What a snapshot after any run says of a key: how many of the retained reservations have begun and how
      many are still to come, and how far away the first slot is that fits in with them. */
  lemma SnapshotTells(cfg: Config, ops: seq<Op>, key: string, current: nat)
    requires ValidConfig(cfg) && Steady(cfg.ar, ops) && cfg.ar.sub(current) < current
    ensures var before := Run(cfg, ops).0;
            var (after, view) := SnapshotStep(cfg, before, key, current);
            var kept := Lookup(after.table, key);
            && IsRetained(cfg.ar, Lookup(before.table, key), kept, current, before.nextToken)
            && view.key == key && view.capacity == cfg.capacity
            && view.active == BegunBy(kept, current)
            && view.queued == |kept| - BegunBy(kept, current)
            && IsFirstFit(cfg, kept, current, current + view.nextAvailableIn)
  {
    hide Run, Earliest, IsFirstFit, IsRetained, WithinCapacity, TokensRise, Live, Available, Count, CountAfter;
    var before := Run(cfg, ops).0;
    var rs := Lookup(before.table, key);
    var kept := Live(rs, cfg.ar.sub(current));
    TableRises(cfg, ops, key);
    FindsRetained(cfg, before, key, current);
    RetainedWithinCapacity(cfg, ops);
    assert WithinCapacity(cfg.ar, cfg.capacity, Times(rs));
    PruningKeepsCapacity(cfg, rs, cfg.ar.sub(current));
    EarliestIsFirstFit(cfg, kept, current);
    LiveMembers(rs, cfg.ar.sub(current));
    ActiveAndQueuedAre(cfg.ar, kept, current);
    EmptyView(cfg, key, current);
    assert Times([]) == [];
    LiveOfNone(cfg.ar.sub(current));
  }

  /** A reservation made at the time of a snapshot, right after it, gets the slot the snapshot named. */
  lemma SnapshotIsHonoured(cfg: Config, ops: seq<Op>, key: string, current: nat, notBefore: nat)
    requires ValidConfig(cfg) && Steady(cfg.ar, ops) && cfg.ar.sub(current) < current && notBefore <= current
    ensures var (after, view) := SnapshotStep(cfg, Run(cfg, ops).0, key, current);
            ReserveStep(cfg, after, key, current, notBefore).1.scheduledAt == current + view.nextAvailableIn
  {
    hide Run, Earliest, TokensRise, Live, Available, Count, CountAfter, MaybeCleanup, IsRetained;
    var before := Run(cfg, ops).0;
    var after := SnapshotStep(cfg, before, key, current).0;
    var rs, boundary := Lookup(before.table, key), cfg.ar.sub(current);
    TableRises(cfg, ops, key);
    FindsRetained(cfg, before, key, current);
    LiveRises(rs, boundary, before.nextToken);
    LiveLive(rs, boundary, boundary);
    LiveOfNone(boundary);
    CountingSweeps(cfg.ar, before, current);
    FindsRetained(cfg, after, key, current);
    EmptyView(cfg, key, current);
    assert Times([]) == [];
  }

  // ---------------------------------------------------------------- sweeps

  /** Reservations, releases and snapshots count, unless their key is refused. */
  predicate IsCounted(op: Op) {
    match op
    case Reserve(key, _, _) => ValidKey(key)
    case Release(_, _) => true
    case Snapshot(key, _) => ValidKey(key)
    case Cleanup(_) => false
  }

  function Counted(ops: seq<Op>): nat {
    if ops == [] then 0 else Counted(ops[..|ops| - 1]) + if IsCounted(ops[|ops| - 1]) then 1 else 0
  }

  lemma {:induction false} CountsEachOperation(cfg: Config, ops: seq<Op>)
    requires ValidConfig(cfg) && Steady(cfg.ar, ops)
    ensures Run(cfg, ops).0.opCount == Counted(ops) % 100
  {
    hide ValidKey, Earliest, View, Live;
    if ops != [] {
      CountsEachOperation(cfg, ops[..|ops| - 1]);
    }
  }

  /** A table keeps, of every key, all or nothing: nothing exactly when all its reservations have left the
      window that ends at `current`. */
  ghost predicate IsSwept(ar: Arith, before: Book, after: Book, current: nat, key: string) {
    if exists r :: r in Lookup(before.table, key) && r.scheduledAt > ar.sub(current)
    then key in after.table && after.table[key] == before.table[key]
    else key !in after.table
  }

  lemma SweepDropsExpired(ar: Arith, book: Book, current: nat, key: string)
    ensures IsSwept(ar, book, book.(table := Sweep(ar, book.table, current)), current, key)
  {
    var rs := Lookup(book.table, key);
    assert forall i :: 0 <= i < |rs| ==> rs[i] in rs;
    if r :| r in rs && r.scheduledAt > ar.sub(current) {
      var i :| 0 <= i < |rs| && rs[i] == r;
    }
  }

  /** Every hundredth counted operation of a run drops the keys it does not concern that have wholly expired
      at its reading; other counted operations leave all other keys alone; an explicit cleanup drops all
      expired keys, at any time. */
  lemma {:induction false} EveryHundredthSweeps(cfg: Config, ops: seq<Op>, op: Op, key: string)
    requires ValidConfig(cfg) && Steady(cfg.ar, ops) && Ends(cfg.ar, op) && !Touches(op, key)
    ensures var (before, after) := (Run(cfg, ops).0, Apply(cfg, Run(cfg, ops).0, op).0);
            if op.Cleanup? || (IsCounted(op) && Counted(ops + [op]) % 100 == 0) then
              IsSwept(cfg.ar, before, after, op.current, key)
            else SameOnKey(after, before, key)
  {
    hide Run, Apply, IsSwept, MaybeCleanup, IsCounted;
    var before := Run(cfg, ops).0;
    CountsEachOperation(cfg, ops);
    assert (ops + [op])[..|ops|] == ops;
    OtherKeys(cfg, before, op, key);
    CountingSweepsOrNot(cfg.ar, before, op.current, key);
  }

  /** Of a key it does not concern, an operation leaves what counting it leaves. */
  lemma {:induction false} OtherKeys(cfg: Config, book: Book, op: Op, key: string)
    requires ValidConfig(cfg) && Ends(cfg.ar, op) && !Touches(op, key)
    ensures var after := Apply(cfg, book, op).0;
            && (IsCounted(op) ==> SameOnKey(after, MaybeCleanup(cfg.ar, book, op.current), key))
            && (!IsCounted(op) && !op.Cleanup? ==> after == book)
    ensures op.Cleanup? ==> IsSwept(cfg.ar, book, Apply(cfg, book, op).0, op.current, key)
  {
    hide MaybeCleanup, ValidKey, Earliest, View, Live, Sweep, Expired, RemoveToken, IsSwept;
    if op.Cleanup? {
      SweepDropsExpired(cfg.ar, book, op.current, key);
    }
  }

  predicate SameOnKey(a: Book, b: Book, key: string) {
    (key in a.table <==> key in b.table) && Lookup(a.table, key) == Lookup(b.table, key)
  }

  lemma {:induction false} CountingSweepsOrNot(ar: Arith, book: Book, current: nat, key: string)
    ensures var after := MaybeCleanup(ar, book, current);
            if book.opCount + 1 >= 100 then
              forall b: Book :: SameOnKey(b, after, key) ==> IsSwept(ar, book, b, current, key)
            else after.table == book.table
  {
    hide Sweep, Expired;
    SweepDropsExpired(ar, book, current, key);
  }

  /** A release leaves no empty list that it did not find. */
  lemma ReleaseDropsEmptyKey(cfg: Config, book: Book, r: Reservation, current: nat)
    ensures var after := ReleaseStep(cfg, book, r, current).table;
            r.key in after && after[r.key] == [] ==> r.key in book.table && book.table[r.key] == []
  {
  }

  // ---------------------------------------------------------------- keys

  predicate IsBlank(c: char) {
    c == ' ' || c == '\t' || c == '\n' || c == '\r'
  }

  /** A blank key is refused, and the budget does not change; a key with a visible ASCII character is served. */
  lemma BlankKeysAreRefused(cfg: Config, book: Book, op: Op)
    requires ValidConfig(cfg) && Ends(cfg.ar, op) && (op.Reserve? || op.Snapshot?)
    ensures (forall i :: 0 <= i < |op.key| ==> IsBlank(op.key[i])) ==> Apply(cfg, book, op) == (book, Refused)
    ensures (exists i :: 0 <= i < |op.key| && '!' <= op.key[i] <= '~') ==> !Apply(cfg, book, op).1.Refused?
  {
    hide ReserveStep, SnapshotStep;
    if i :| 0 <= i < |op.key| && '!' <= op.key[i] <= '~' {
      assert !IsSpace(op.key[i]);
    }
  }
}
