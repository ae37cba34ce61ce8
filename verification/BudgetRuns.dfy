/** Whole runs of one budget: what any sequence of operations keeps, compared with an
archive that never forgets a reservation. */
module BudgetRuns {
  import opened RollingWindow
  import opened LegalityTests
  import opened BudgetState

  /** `current` is the clock reading an operation works with. */
  datatype Op =
    | Reserve(key: string, current: nat, notBefore: nat)
    | Release(reservation: Reservation, current: nat)
    | Snapshot(key: string, current: nat)
    | Cleanup(current: nat)

  datatype Answer = Granted(reservation: Reservation) | Seen(view: BudgetState.Snapshot) | Refused | Done

  /** A snapshot counts the slots available now, which ends when subtracting the period moves its
      reading; the other operations are answered at any reading. */
  predicate Ends(ar: Arith, op: Op) {
    op.Snapshot? ==> ar.sub(op.current) < op.current
  }

  ghost predicate Steady(ar: Arith, ops: seq<Op>) {
    forall i :: 0 <= i < |ops| ==> Ends(ar, ops[i])
  }

  ghost function Apply(cfg: Config, book: Book, op: Op): (Book, Answer)
    requires ValidConfig(cfg) && Ends(cfg.ar, op)
  {
    match op
    case Reserve(key, current, notBefore) =>
      if !ValidKey(key) then (book, Refused)
      else
        var (b, r) := ReserveStep(cfg, book, key, current, notBefore);
        (b, Granted(r))
    case Release(r, current) => (ReleaseStep(cfg, book, r, current), Done)
    case Snapshot(key, current) =>
      if !ValidKey(key) then (book, Refused)
      else
        var (b, view) := SnapshotStep(cfg, book, key, current);
        (b, Seen(view))
    case Cleanup(current) => (CleanupStep(cfg, book, current), Done)
  }

  ghost function Run(cfg: Config, ops: seq<Op>): (r: (Book, seq<Answer>))
    requires ValidConfig(cfg) && Steady(cfg.ar, ops)
    ensures |r.1| == |ops|
  {
    if ops == [] then (EMPTY_BOOK, [])
    else
      var (book, answers) := Run(cfg, ops[..|ops| - 1]);
      var (b, a) := Apply(cfg, book, ops[|ops| - 1]);
      (b, answers + [a])
  }

  /** A run goes on with one more operation. */
  lemma RunGoesOn(cfg: Config, ops: seq<Op>, op: Op)
    requires ValidConfig(cfg) && Steady(cfg.ar, ops) && Ends(cfg.ar, op)
    ensures Steady(cfg.ar, ops + [op])
    ensures var (book, answers) := Run(cfg, ops);
            var (after, answer) := Apply(cfg, book, op);
            Run(cfg, ops + [op]) == (after, answers + [answer])
  {
    assert (ops + [op])[..|ops|] == ops && (ops + [op])[|ops|] == op;
  }

  /** The reservations of `key` granted and not released again, whatever the budget has forgotten. */
  function Outstanding(ops: seq<Op>, answers: seq<Answer>, key: string): seq<Reservation>
    requires |ops| == |answers|
  {
    if ops == [] then []
    else
      var n := |ops| - 1;
      var before := Outstanding(ops[..n], answers[..n], key);
      match (ops[n], answers[n])
      case (Reserve(k, _, _), Granted(r)) => if k == key then before + [r] else before
      case (Release(r, _), _) => if r.key == key then RemoveToken(before, r.token) else before
      case _ => before
  }

  // ---------------------------------------------------------------- the archive

  datatype Archive = Archive(table: map<string, seq<Reservation>>, nextToken: nat)

  /** The reference budget: no pruning, no sweeps, every question answered from all that is outstanding. */
  ghost function Consult(cfg: Config, archive: Archive, op: Op): (Archive, Answer)
    requires ValidConfig(cfg) && Ends(cfg.ar, op)
  {
    match op
    case Reserve(key, current, notBefore) =>
      if !ValidKey(key) then (archive, Refused)
      else
        var all := Lookup(archive.table, key);
        var r := Reservation(archive.nextToken, key,
            Earliest(cfg.ar, cfg.capacity, Times(all), Max(current, notBefore)));
        (Archive(archive.table[key := all + [r]], archive.nextToken + 1), Granted(r))
    case Release(r, current) =>
      (archive.(table := archive.table[r.key := RemoveToken(Lookup(archive.table, r.key), r.token)]), Done)
    case Snapshot(key, current) =>
      (archive, if ValidKey(key) then Seen(View(cfg, key, Times(Lookup(archive.table, key)), current)) else Refused)
    case Cleanup(current) => (archive, Done)
  }

  ghost function Recall(cfg: Config, ops: seq<Op>): (r: (Archive, seq<Answer>))
    requires ValidConfig(cfg) && Steady(cfg.ar, ops)
    ensures |r.1| == |ops|
  {
    if ops == [] then (Archive(map[], 1), [])
    else
      var (archive, answers) := Recall(cfg, ops[..|ops| - 1]);
      var (a, answer) := Consult(cfg, archive, ops[|ops| - 1]);
      (a, answers + [answer])
  }

  lemma RecallExtended(cfg: Config, ops: seq<Op>, op: Op)
    requires ValidConfig(cfg) && Steady(cfg.ar, ops) && Ends(cfg.ar, op)
    ensures Steady(cfg.ar, ops + [op])
    ensures var (archive, answers) := Recall(cfg, ops);
            var (after, answer) := Consult(cfg, archive, op);
            Recall(cfg, ops + [op]) == (after, answers + [answer])
  {
    assert (ops + [op])[..|ops|] == ops;
  }

  // ---------------------------------------------------------------- one step of both

  /** Two lists hold the same reservations after `boundary`, and tokens rise along both. */
  predicate SameLive(xs: seq<Reservation>, ys: seq<Reservation>, nextToken: nat, boundary: int) {
    Live(xs, boundary) == Live(ys, boundary) && TokensRise(xs, nextToken) && TokensRise(ys, nextToken)
  }

  ghost predicate SameTables(t: map<string, seq<Reservation>>, u: map<string, seq<Reservation>>, nextToken: nat,
          boundary: int) {
    forall key :: SameLive(Lookup(t, key), Lookup(u, key), nextToken, boundary)
  }

  /** The book and the archive hold the same reservations after `boundary`. */
  ghost predicate Agree(book: Book, archive: Archive, boundary: int) {
    book.nextToken == archive.nextToken && SameTables(book.table, archive.table, book.nextToken, boundary)
  }

  lemma SameLiveLater(xs: seq<Reservation>, ys: seq<Reservation>, nextToken: nat, low: int, high: int)
    requires SameLive(xs, ys, nextToken, low) && low <= high
    ensures SameLive(xs, ys, nextToken, high)
  {
    LiveLive(xs, low, high);
    LiveLive(ys, low, high);
  }

  lemma SameLivePruned(xs: seq<Reservation>, ys: seq<Reservation>, nextToken: nat, boundary: int)
    requires SameLive(xs, ys, nextToken, boundary)
    ensures SameLive(Live(xs, boundary), ys, nextToken, boundary)
  {
    LiveLive(xs, boundary, boundary);
    LiveRises(xs, boundary, nextToken);
  }

  lemma AppendRises(rs: seq<Reservation>, r: Reservation, nextToken: nat)
    requires TokensRise(rs, nextToken) && r.token == nextToken
    ensures TokensRise(rs + [r], nextToken + 1)
  {
  }

  lemma SameLiveGranted(xs: seq<Reservation>, ys: seq<Reservation>, r: Reservation, nextToken: nat, boundary: int)
    requires SameLive(xs, ys, nextToken, boundary) && r.token == nextToken
    ensures SameLive(xs + [r], ys + [r], nextToken + 1, boundary)
  {
    LiveConcat(xs, [r], boundary);
    LiveConcat(ys, [r], boundary);
    AppendRises(xs, r, nextToken);
    AppendRises(ys, r, nextToken);
  }

  lemma SameLiveReleased(xs: seq<Reservation>, ys: seq<Reservation>, token: nat, nextToken: nat, boundary: int)
    requires SameLive(xs, ys, nextToken, boundary)
    ensures SameLive(RemoveToken(xs, token), RemoveToken(ys, token), nextToken, boundary)
  {
    LiveRemove(xs, token, boundary);
    LiveRemove(ys, token, boundary);
    RemoveTokenRises(xs, token, nextToken);
    RemoveTokenRises(ys, token, nextToken);
  }

  lemma AgreeLater(book: Book, archive: Archive, low: int, high: int)
    requires Agree(book, archive, low) && low <= high
    ensures Agree(book, archive, high)
  {
    forall key ensures SameLive(Lookup(book.table, key), Lookup(archive.table, key), book.nextToken, high) {
      SameLiveLater(Lookup(book.table, key), Lookup(archive.table, key), book.nextToken, low, high);
    }
  }

  /** A sweep drops only what is already behind the boundary. */
  lemma SweepAgrees(ar: Arith, table: map<string, seq<Reservation>>, other: map<string, seq<Reservation>>,
          nextToken: nat, current: nat)
    requires SameTables(table, other, nextToken, ar.sub(current))
    ensures SameTables(Sweep(ar, table, current), other, nextToken, ar.sub(current))
  {
    var swept := Sweep(ar, table, current);
    forall key ensures SameLive(Lookup(swept, key), Lookup(other, key), nextToken, ar.sub(current)) {
      assert SameLive(Lookup(table, key), Lookup(other, key), nextToken, ar.sub(current));
      if key in table && Expired(ar, table[key], current) {
        LiveNone(table[key], ar.sub(current));
      }
    }
  }

  lemma SameLiveToken(xs: seq<Reservation>, ys: seq<Reservation>, nextToken: nat, later: nat, boundary: int)
    requires SameLive(xs, ys, nextToken, boundary) && nextToken <= later
    ensures SameLive(xs, ys, later, boundary)
  {
    hide Live;
  }

  /** Replacing the lists of one key by lists that agree keeps the tables in agreement. */
  lemma SameTablesUpdated(t: map<string, seq<Reservation>>, u: map<string, seq<Reservation>>, key: string,
                          t': map<string, seq<Reservation>>, u': map<string, seq<Reservation>>,
                          nextToken: nat, nextToken': nat, boundary: int)
    requires SameTables(t, u, nextToken, boundary) && nextToken <= nextToken'
    requires forall k :: k != key ==> Lookup(t', k) == Lookup(t, k) && Lookup(u', k) == Lookup(u, k)
    requires SameLive(Lookup(t', key), Lookup(u', key), nextToken', boundary)
    ensures SameTables(t', u', nextToken', boundary)
  {
    hide SameLive, Lookup;
    forall k ensures SameLive(Lookup(t', k), Lookup(u', k), nextToken', boundary) {
      if k != key {
        assert SameLive(Lookup(t, k), Lookup(u, k), nextToken, boundary);
        SameLiveToken(Lookup(t, k), Lookup(u, k), nextToken, nextToken', boundary);
      }
    }
  }

  lemma CountingAgrees(cfg: Config, book: Book, archive: Archive, current: nat)
    requires Agree(book, archive, cfg.ar.sub(current))
    ensures Agree(MaybeCleanup(cfg.ar, book, current), archive, cfg.ar.sub(current))
  {
    SweepAgrees(cfg.ar, book.table, archive.table, book.nextToken, current);
  }

  lemma ReserveAgrees(cfg: Config, book: Book, archive: Archive, key: string, current: nat, notBefore: nat)
    requires ValidConfig(cfg) && ValidKey(key)
    requires Agree(book, archive, cfg.ar.sub(current))
    ensures var (b, r) := ReserveStep(cfg, book, key, current, notBefore);
            var (a, answer) := Consult(cfg, archive, Reserve(key, current, notBefore));
            answer == Granted(r) && Agree(b, a, cfg.ar.sub(current))
  {
    hide Agree, Live, Sweep, Earliest, MaybeCleanup, Lookup;
    CountingAgrees(cfg, book, archive, current);
    var c := MaybeCleanup(cfg.ar, book, current);
    var all := Lookup(archive.table, key);
    AgreeOnKey(c, archive, key, cfg.ar.sub(current));
    EarliestIgnoresExpired(cfg, all, current, Max(current, notBefore));
    var r := Reservation(c.nextToken, key, Earliest(cfg.ar, cfg.capacity, Times(all), Max(current, notBefore)));
    GrantAgrees(c, archive, r, cfg.ar.sub(current));
  }

  lemma SameLiveOnKey(book: Book, archive: Archive, key: string, boundary: int)
    requires Agree(book, archive, boundary)
    ensures book.nextToken == archive.nextToken && SameTables(book.table, archive.table, book.nextToken, boundary)
    ensures SameLive(Lookup(book.table, key), Lookup(archive.table, key), book.nextToken, boundary)
  {
  }

  lemma AgreeOnKey(book: Book, archive: Archive, key: string, boundary: int)
    requires Agree(book, archive, boundary)
    ensures book.nextToken == archive.nextToken
    ensures Live(Lookup(book.table, key), boundary) == Live(Lookup(archive.table, key), boundary)
  {
    assert SameLive(Lookup(book.table, key), Lookup(archive.table, key), book.nextToken, boundary);
  }

  lemma GrantAgrees(c: Book, archive: Archive, r: Reservation, boundary: int)
    requires Agree(c, archive, boundary) && r.token == c.nextToken
    ensures Agree(Book(c.table[r.key := Live(Lookup(c.table, r.key), boundary) + [r]], c.nextToken + 1, c.opCount),
                  Archive(archive.table[r.key := Lookup(archive.table, r.key) + [r]], archive.nextToken + 1), boundary)
  {
    hide Agree, Live;
    PruningAgrees(c, archive, r.key, boundary);
    var kept := Live(Lookup(c.table, r.key), boundary);
    AppendAgrees(c.(table := c.table[r.key := kept]), archive, r, boundary);
    assert c.table[r.key := kept][r.key := kept + [r]] == c.table[r.key := kept + [r]];
  }

  lemma AppendAgrees(c: Book, archive: Archive, r: Reservation, boundary: int)
    requires Agree(c, archive, boundary) && r.token == c.nextToken
    ensures Agree(Book(c.table[r.key := Lookup(c.table, r.key) + [r]], c.nextToken + 1, c.opCount),
                  Archive(archive.table[r.key := Lookup(archive.table, r.key) + [r]], archive.nextToken + 1), boundary)
  {
    hide SameTables, SameLive, Live;
    var xs, all := Lookup(c.table, r.key), Lookup(archive.table, r.key);
    SameLiveOnKey(c, archive, r.key, boundary);
    SameLiveGranted(xs, all, r, c.nextToken, boundary);
    SameTablesUpdated(c.table, archive.table, r.key, c.table[r.key := xs + [r]],
                      archive.table[r.key := all + [r]], c.nextToken, c.nextToken + 1, boundary);
  }

  lemma ReleaseAgrees(cfg: Config, book: Book, archive: Archive, r: Reservation, current: nat)
    requires ValidConfig(cfg)
    requires Agree(book, archive, cfg.ar.sub(current))
    ensures Agree(ReleaseStep(cfg, book, r, current), Consult(cfg, archive, Release(r, current)).0, cfg.ar.sub(current))
  {
    CountingAgrees(cfg, book, archive, current);
    ReleaseShape(cfg, book, r, current);
    RemovalAgrees(MaybeCleanup(cfg.ar, book, current), ReleaseStep(cfg, book, r, current), archive, r,
        cfg.ar.sub(current));
  }

  /** A release changes the list of its key by one removal, and no other list. */
  lemma ReleaseShape(cfg: Config, book: Book, r: Reservation, current: nat)
    ensures var c, b := MaybeCleanup(cfg.ar, book, current), ReleaseStep(cfg, book, r, current);
            && b.nextToken == c.nextToken
            && Lookup(b.table, r.key) == RemoveToken(Lookup(c.table, r.key), r.token)
            && forall k :: k != r.key ==> Lookup(b.table, k) == Lookup(c.table, k)
  {
  }

  lemma RemovalAgrees(c: Book, b: Book, archive: Archive, r: Reservation, boundary: int)
    requires Agree(c, archive, boundary) && b.nextToken == c.nextToken
    requires Lookup(b.table, r.key) == RemoveToken(Lookup(c.table, r.key), r.token)
    requires forall k :: k != r.key ==> Lookup(b.table, k) == Lookup(c.table, k)
    ensures Agree(b, archive.(table := archive.table[r.key := RemoveToken(Lookup(archive.table, r.key), r.token)]),
        boundary)
  {
    hide SameTables, SameLive, Live;
    var xs, ys := Lookup(c.table, r.key), Lookup(archive.table, r.key);
    SameLiveOnKey(c, archive, r.key, boundary);
    SameLiveReleased(xs, ys, r.token, c.nextToken, boundary);
    SameTablesUpdated(c.table, archive.table, r.key, b.table,
                      archive.table[r.key := RemoveToken(ys, r.token)], c.nextToken, c.nextToken, boundary);
  }

  lemma CountAfterCons(x: nat, times: seq<nat>, t: nat)
    ensures CountAfter([x] + times, t) == (if x > t then 1 else 0) + CountAfter(times, t)
  {
    assert ([x] + times)[1..] == times;
  }

  lemma TimesCons(r: Reservation, rs: seq<Reservation>)
    ensures Times([r] + rs) == [r.scheduledAt] + Times(rs)
  {
  }

  lemma {:induction false} CountAfterLive(rs: seq<Reservation>, boundary: int, t: nat)
    requires boundary <= t
    ensures CountAfter(Times(Live(rs, boundary)), t) == CountAfter(Times(rs), t)
  {
    if rs != [] {
      hide Times, CountAfter, Live;
      var r, rest := rs[0], rs[1..];
      assert rs == [r] + rest;
      CountAfterLive(rest, boundary, t);
      LiveCons(r, rest, boundary);
      TimesCons(r, rest);
      TimesCons(r, Live(rest, boundary));
      CountAfterCons(r.scheduledAt, Times(rest), t);
      CountAfterCons(r.scheduledAt, Times(Live(rest, boundary)), t);
    }
  }

  /** The available slots at `t` depend only on the windows that end at `t` or later. */
  lemma {:induction false} AvailableDependsOnFuture(ar: Arith, capacity: nat, a: seq<nat>, b: seq<nat>, t: nat)
    requires ar.sub(t) < t
    requires forall w :: t <= w ==> Count(ar, a, w) == Count(ar, b, w)
    requires forall x :: t < x ==> (x in a <==> x in b)
    ensures Available(ar, capacity, a, t) == Available(ar, capacity, b, t)
    decreases Available(ar, capacity, a, t)
  {
    assert LegalByEnds(ar, capacity, a, t) <==> LegalByEnds(ar, capacity, b, t) by {
      if LegalByEnds(ar, capacity, a, t) { SameEnds(ar, capacity, a, b, t); }
      if LegalByEnds(ar, capacity, b, t) { SameEnds(ar, capacity, b, a, t); }
    }
    if LegalByEnds(ar, capacity, a, t) {
      forall w | t <= w ensures Count(ar, a + [t], w) == Count(ar, b + [t], w) {
        CountAppended(ar, a, t, w);
        CountAppended(ar, b, t, w);
      }
      AvailableDependsOnFuture(ar, capacity, a + [t], b + [t], t);
    }
  }

  lemma SameEnds(ar: Arith, capacity: nat, a: seq<nat>, b: seq<nat>, t: nat)
    requires forall w :: t <= w ==> Count(ar, a, w) == Count(ar, b, w)
    requires forall x :: t < x ==> (x in a <==> x in b)
    requires LegalByEnds(ar, capacity, a, t)
    ensures LegalByEnds(ar, capacity, b, t)
  {
    forall i | 0 <= i < |b| && t < b[i] < ar.add(t) ensures Count(ar, b, b[i]) < capacity {
      assert b[i] in a;
    }
  }

  /** A snapshot of what is left after forgetting is a snapshot of everything. */
  lemma ViewIgnoresExpired(cfg: Config, key: string, all: seq<Reservation>, current: nat)
    requires ValidConfig(cfg) && cfg.ar.sub(current) < current
    ensures View(cfg, key, Times(Live(all, cfg.ar.sub(current))), current) == View(cfg, key, Times(all), current)
  {
    var boundary := cfg.ar.sub(current);
    var kept := Live(all, boundary);
    EarliestIgnoresExpired(cfg, all, current, current);
    CountAfterLive(all, boundary, current);
    forall w | current <= w ensures Count(cfg.ar, Times(kept), w) == Count(cfg.ar, Times(all), w) {
      CountLive(cfg.ar, all, boundary, w);
    }
    LiveMembers(all, boundary);
    forall x | current < x ensures x in Times(kept) <==> x in Times(all) {
      TimesMembers(kept, x);
      TimesMembers(all, x);
    }
    AvailableDependsOnFuture(cfg.ar, cfg.capacity, Times(kept), Times(all), current);
  }

  lemma TimesMembers(rs: seq<Reservation>, x: nat)
    ensures x in Times(rs) <==> exists r :: r in rs && r.scheduledAt == x
  {
    if r :| r in rs && r.scheduledAt == x {
      var i :| 0 <= i < |rs| && rs[i] == r;
      assert Times(rs)[i] == x;
    }
  }

  lemma {:induction false} AvailableAfterCopies(ar: Arith, capacity: nat, t: nat, n: nat)
    requires ar.sub(t) < t && n <= capacity
    ensures Available(ar, capacity, Copies(t, n), t) == capacity - n
    decreases capacity - n
  {
    CountCopies(ar, t, n, t);
    if n < capacity {
      AvailableAfterCopies(ar, capacity, t, n + 1);
      assert Copies(t, n) + [t] == Copies(t, n + 1);
    }
  }

  lemma EmptyView(cfg: Config, key: string, current: nat)
    requires ValidConfig(cfg) && cfg.ar.sub(current) < current
    ensures View(cfg, key, [], current) == SnapshotOf(key, cfg.capacity, 0, cfg.capacity, 0, 0)
  {
    AvailableAfterCopies(cfg.ar, cfg.capacity, current, 0);
    assert Copies(current, 0) == [];
    assert LegalSlot(cfg.ar, cfg.capacity, [], current);
  }

  lemma PruningAgrees(c: Book, archive: Archive, key: string, boundary: int)
    requires Agree(c, archive, boundary)
    ensures Agree(c.(table := c.table[key := Live(Lookup(c.table, key), boundary)]), archive, boundary)
  {
    hide SameTables, SameLive, Live;
    var xs, all := Lookup(c.table, key), Lookup(archive.table, key);
    SameLiveOnKey(c, archive, key, boundary);
    SameLivePruned(xs, all, c.nextToken, boundary);
    SameTablesUpdated(c.table, archive.table, key, c.table[key := Live(xs, boundary)], archive.table,
                      c.nextToken, c.nextToken, boundary);
  }

  lemma SnapshotAgrees(cfg: Config, book: Book, archive: Archive, key: string, current: nat)
    requires ValidConfig(cfg) && cfg.ar.sub(current) < current
    requires Agree(book, archive, cfg.ar.sub(current))
    ensures var (b, view) := SnapshotStep(cfg, book, key, current);
            view == View(cfg, key, Times(Lookup(archive.table, key)), current) && Agree(b, archive, cfg.ar.sub(current))
  {
    CountingAgrees(cfg, book, archive, current);
    var c := MaybeCleanup(cfg.ar, book, current);
    var all := Lookup(archive.table, key);
    assert SameLive(Lookup(c.table, key), all, c.nextToken, cfg.ar.sub(current));
    ViewIgnoresExpired(cfg, key, all, current);
    PruningAgrees(c, archive, key, cfg.ar.sub(current));
    if key !in c.table {
      assert Times([]) == [];
      EmptyView(cfg, key, current);
    }
  }

  /** One operation: if nothing that matters at its reading was forgotten, its answer is the archive's. */
  lemma StepAgrees(cfg: Config, book: Book, archive: Archive, op: Op)
    requires ValidConfig(cfg) && Ends(cfg.ar, op)
    requires Agree(book, archive, cfg.ar.sub(op.current))
    ensures Apply(cfg, book, op).1 == Consult(cfg, archive, op).1
    ensures Agree(Apply(cfg, book, op).0, Consult(cfg, archive, op).0, cfg.ar.sub(op.current))
  {
    match op
    case Reserve(key, current, notBefore) =>
      if ValidKey(key) {
        ReserveAgrees(cfg, book, archive, key, current, notBefore);
      }
    case Release(r, current) =>
      ReleaseAgrees(cfg, book, archive, r, current);
    case Snapshot(key, current) =>
      if ValidKey(key) {
        SnapshotAgrees(cfg, book, archive, key, current);
      }
    case Cleanup(current) =>
      SweepAgrees(cfg.ar, book.table, archive.table, book.nextToken, current);
  }

  // ---------------------------------------------------------------- the readings of a run

  function Readings(ops: seq<Op>): (cs: seq<nat>)
    ensures |cs| == |ops| && forall i :: 0 <= i < |ops| ==> cs[i] == ops[i].current
  {
    seq(|ops|, i requires 0 <= i < |ops| => ops[i].current)
  }

  /** A peak is a reading that may make the budget forget what an earlier operation was granted, and
      after which a later operation looks further back. */
  ghost predicate NoPeak(ar: Arith, cs: seq<nat>) {
    forall i, j, k :: 0 <= i < j < k < |cs| && cs[i] <= ar.sub(cs[j]) ==> ar.sub(cs[j]) <= ar.sub(cs[k])
  }

  lemma NonDecreasingHasNoPeak(ar: Arith, cs: seq<nat>)
    requires Sound(ar) && forall i, j :: 0 <= i < j < |cs| ==> cs[i] <= cs[j]
    ensures NoPeak(ar, cs)
  {
  }

  /** Every reservation in the table is at `floor` or later. */
  ghost predicate AllFrom(table: map<string, seq<Reservation>>, floor: int) {
    forall key, r :: r in Lookup(table, key) ==> r.scheduledAt >= floor
  }

  lemma AllFromSwept(ar: Arith, table: map<string, seq<Reservation>>, current: nat, floor: int)
    requires AllFrom(table, floor)
    ensures AllFrom(Sweep(ar, table, current), floor)
  {
    forall key, r | r in Lookup(Sweep(ar, table, current), key) ensures r.scheduledAt >= floor {
      assert r in Lookup(table, key);
    }
  }

  lemma AllFromAfterStep(cfg: Config, book: Book, archive: Archive, op: Op, floor: int)
    requires ValidConfig(cfg) && Ends(cfg.ar, op) && floor <= op.current
    requires AllFrom(book.table, floor) && AllFrom(archive.table, floor)
    ensures AllFrom(Apply(cfg, book, op).0.table, floor)
    ensures AllFrom(Consult(cfg, archive, op).0.table, floor)
  {
    hide Live, RemoveToken, Earliest, View, Sweep, Expired;
    var c := MaybeCleanup(cfg.ar, book, op.current);
    AllFromSwept(cfg.ar, book.table, op.current, floor);
    match op
    case Reserve(key, current, _) =>
      LiveMembers(Lookup(c.table, key), cfg.ar.sub(current));
      if ValidKey(key) {
        AllFromUpdated(c.table, key, Apply(cfg, book, op).0.table, floor);
        AllFromUpdated(archive.table, key, Consult(cfg, archive, op).0.table, floor);
      }
    case Release(r, current) =>
      RemoveTokenMembers(Lookup(c.table, r.key), r.token);
      RemoveTokenMembers(Lookup(archive.table, r.key), r.token);
      ReleaseShape(cfg, book, r, current);
      AllFromUpdated(c.table, r.key, ReleaseStep(cfg, book, r, current).table, floor);
      AllFromUpdated(archive.table, r.key, Consult(cfg, archive, op).0.table, floor);
    case Snapshot(key, current) =>
      LiveMembers(Lookup(c.table, key), cfg.ar.sub(current));
      if ValidKey(key) {
        AllFromUpdated(c.table, key, Apply(cfg, book, op).0.table, floor);
      }
    case Cleanup(current) =>
      assert Apply(cfg, book, op).0.table == Sweep(cfg.ar, book.table, current);
  }

  lemma AllFromUpdated(t: map<string, seq<Reservation>>, key: string, t': map<string, seq<Reservation>>, floor: int)
    requires AllFrom(t, floor)
    requires forall k :: k != key ==> Lookup(t', k) == Lookup(t, k)
    requires forall r :: r in Lookup(t', key) ==> r.scheduledAt >= floor
    ensures AllFrom(t', floor)
  {
    forall k, r | r in Lookup(t', k) ensures r.scheduledAt >= floor {
      assert k != key ==> r in Lookup(t, k);
    }
  }

  /** Book and archive hold the very same lists. */
  ghost predicate SameLists(book: Book, archive: Archive) {
    && book.nextToken == archive.nextToken
    && forall key ::
         && Lookup(book.table, key) == Lookup(archive.table, key)
         && TokensRise(Lookup(archive.table, key), archive.nextToken)
  }

  lemma SameListsAgree(book: Book, archive: Archive, boundary: int)
    requires SameLists(book, archive)
    ensures Agree(book, archive, boundary)
  {
    hide TokensRise, Live;
  }

  /** Where nothing lies behind the boundary, to agree is to hold the same lists. */
  lemma AgreeIsSameLists(book: Book, archive: Archive, boundary: int)
    requires Agree(book, archive, boundary)
    requires AllFrom(book.table, boundary + 1) && AllFrom(archive.table, boundary + 1)
    ensures SameLists(book, archive)
  {
    hide TokensRise, Lookup;
    forall key
      ensures Lookup(book.table, key) == Lookup(archive.table, key)
          && TokensRise(Lookup(archive.table, key), archive.nextToken)
    {
      assert SameLive(Lookup(book.table, key), Lookup(archive.table, key), book.nextToken, boundary);
      LiveAll(Lookup(book.table, key), boundary);
      LiveAll(Lookup(archive.table, key), boundary);
    }
  }

  lemma SweepKeepsRecent(ar: Arith, table: map<string, seq<Reservation>>, current: nat, key: string)
    requires AllFrom(table, ar.sub(current) + 1)
    ensures Lookup(Sweep(ar, table, current), key) == Lookup(table, key)
    ensures Live(Lookup(table, key), ar.sub(current)) == Lookup(table, key)
  {
    var rs := Lookup(table, key);
    assert forall i :: 0 <= i < |rs| ==> rs[i] in rs;
    LiveAll(rs, ar.sub(current));
  }

  lemma SameListsUpdated(book: Book, archive: Archive, b: Book, a: Archive, key: string)
    requires SameLists(book, archive) && b.nextToken == a.nextToken >= archive.nextToken
    requires forall k :: k != key ==>
        Lookup(b.table, k) == Lookup(book.table, k) && Lookup(a.table, k) == Lookup(archive.table, k)
    requires Lookup(b.table, key) == Lookup(a.table, key) && TokensRise(Lookup(a.table, key), a.nextToken)
    ensures SameLists(b, a)
  {
    hide TokensRise, Lookup;
    forall k ensures Lookup(b.table, k) == Lookup(a.table, k) && TokensRise(Lookup(a.table, k), a.nextToken) {
      if k != key {
        RisesLater(Lookup(archive.table, k), archive.nextToken, a.nextToken);
      }
    }
  }

  lemma CountingKeepsRecent(cfg: Config, book: Book, archive: Archive, current: nat)
    requires SameLists(book, archive) && AllFrom(book.table, cfg.ar.sub(current) + 1)
    ensures var c := MaybeCleanup(cfg.ar, book, current);
            && SameLists(c, archive) && SameLists(CleanupStep(cfg, book, current), archive)
            && forall key :: Live(Lookup(c.table, key), cfg.ar.sub(current)) == Lookup(archive.table, key)
  {
    hide Live, Sweep, TokensRise, AllFrom, Lookup;
    var c := MaybeCleanup(cfg.ar, book, current);
    forall key
      ensures Lookup(c.table, key) == Lookup(book.table, key) == Lookup(Sweep(cfg.ar, book.table, current), key)
      ensures Live(Lookup(c.table, key), cfg.ar.sub(current)) == Lookup(book.table, key)
    {
      SweepKeepsRecent(cfg.ar, book.table, current, key);
    }
  }

  lemma SameListsReserve(cfg: Config, book: Book, archive: Archive, key: string, current: nat, notBefore: nat)
    requires ValidConfig(cfg) && ValidKey(key) && SameLists(book, archive)
    requires AllFrom(book.table, cfg.ar.sub(current) + 1)
    ensures SameLists(ReserveStep(cfg, book, key, current, notBefore).0,
        Consult(cfg, archive, Reserve(key, current, notBefore)).0)
  {
    hide Live, Earliest, TokensRise, AllFrom, MaybeCleanup, ValidConfig, ValidKey, SameLists;
    CountingKeepsRecent(cfg, book, archive, current);
    var c, all := MaybeCleanup(cfg.ar, book, current), Lookup(archive.table, key);
    var (b, r) := ReserveStep(cfg, book, key, current, notBefore);
    assert b.table == c.table[key := all + [r]];
    var a := Consult(cfg, archive, Reserve(key, current, notBefore)).0;
    SameListsOnKey(c, archive, key);
    assert a.table == archive.table[key := all + [r]];
    AppendRises(all, r, archive.nextToken);
    SameListsUpdated(c, archive, b, a, key);
  }

  lemma SameListsOnKey(book: Book, archive: Archive, key: string)
    requires SameLists(book, archive)
    ensures book.nextToken == archive.nextToken && Lookup(book.table, key) == Lookup(archive.table, key)
    ensures TokensRise(Lookup(archive.table, key), archive.nextToken)
  {
  }

  /** An operation that can forget nothing changes the same lists in the same way. */
  lemma SameListsStep(cfg: Config, book: Book, archive: Archive, op: Op)
    requires ValidConfig(cfg) && Ends(cfg.ar, op) && SameLists(book, archive)
    requires AllFrom(book.table, cfg.ar.sub(op.current) + 1)
    ensures SameLists(Apply(cfg, book, op).0, Consult(cfg, archive, op).0)
  {
    hide Live, Sweep, View, RemoveToken, TokensRise, AllFrom, ValidConfig, MaybeCleanup, SameLists, ReserveStep,
        ValidKey;
    CountingKeepsRecent(cfg, book, archive, op.current);
    var c, a := MaybeCleanup(cfg.ar, book, op.current), Consult(cfg, archive, op).0;
    match op
    case Reserve(key, current, notBefore) =>
      if ValidKey(key) {
        SameListsReserve(cfg, book, archive, key, current, notBefore);
      }
    case Release(r, current) =>
      ReleaseShape(cfg, book, r, current);
      SameListsOnKey(c, archive, r.key);
      RemoveTokenRises(Lookup(archive.table, r.key), r.token, archive.nextToken);
      SameListsUpdated(c, archive, ReleaseStep(cfg, book, r, current), a, r.key);
    case Snapshot(key, current) =>
      SameListsOnKey(c, archive, key);
      if ValidKey(key) {
        SameListsUpdated(c, archive, SnapshotStep(cfg, book, key, current).0, a, key);
      }
    case Cleanup(_) =>
  }

  lemma RisesLater(rs: seq<Reservation>, nextToken: nat, later: nat)
    requires TokensRise(rs, nextToken) && nextToken <= later
    ensures TokensRise(rs, later)
  {
  }

  /** What the operations so far may have made the budget forget lies at or before the boundary. */
  ghost predicate Settled(ar: Arith, cs: seq<nat>, boundary: int) {
    forall i, j :: 0 <= i < j < |cs| && cs[i] <= ar.sub(cs[j]) ==> ar.sub(cs[j]) <= boundary
  }

  predicate IsFloor(cs: seq<nat>, floor: int) {
    forall i :: 0 <= i < |cs| ==> floor <= cs[i]
  }

  /** Book and archive agree after all that may have been forgotten, and hold nothing before the first
      of the readings. */
  ghost predicate Synced(ar: Arith, book: Book, archive: Archive, cs: seq<nat>) {
    && (forall boundary :: Settled(ar, cs, boundary) ==> Agree(book, archive, boundary))
    && (forall floor :: IsFloor(cs, floor) ==> AllFrom(book.table, floor) && AllFrom(archive.table, floor))
  }

  lemma EmptySynced(ar: Arith)
    ensures Synced(ar, EMPTY_BOOK, Archive(map[], 1), [])
  {
  }

  /** The next reading looks back no further than to what was forgotten. */
  lemma NoPeakSettles(ar: Arith, cs: seq<nat>, c: nat)
    requires NoPeak(ar, cs + [c])
    ensures NoPeak(ar, cs) && Settled(ar, cs, ar.sub(c))
  {
    var all := cs + [c];
    assert forall i :: 0 <= i < |cs| ==> all[i] == cs[i];
    assert all[|cs|] == c;
  }

  /** A boundary that the last reading leaves behind: it forgets nothing. */
  lemma SettledBefore(ar: Arith, cs: seq<nat>, c: nat, boundary: int)
    requires Settled(ar, cs + [c], boundary) && boundary < ar.sub(c)
    ensures IsFloor(cs, ar.sub(c) + 1)
  {
    var all := cs + [c];
    forall i | 0 <= i < |cs| ensures ar.sub(c) + 1 <= cs[i] {
      assert all[i] == cs[i] && all[|cs|] == c;
    }
  }

  lemma FloorPrefix(cs: seq<nat>, c: nat, floor: int)
    requires IsFloor(cs + [c], floor)
    ensures IsFloor(cs, floor) && floor <= c
  {
    assert forall i :: 0 <= i < |cs| ==> (cs + [c])[i] == cs[i];
    assert (cs + [c])[|cs|] == c;
  }

  /** Both runs stay in step through one more operation. */
  lemma SyncedStep(cfg: Config, book: Book, archive: Archive, cs: seq<nat>, op: Op)
    requires ValidConfig(cfg) && Synced(cfg.ar, book, archive, cs) && NoPeak(cfg.ar, cs + [op.current])
    requires Ends(cfg.ar, op)
    ensures Apply(cfg, book, op).1 == Consult(cfg, archive, op).1
    ensures Synced(cfg.ar, Apply(cfg, book, op).0, Consult(cfg, archive, op).0, cs + [op.current])
  {
    hide Agree, NoPeak, AllFrom, Apply, Consult, Settled, IsFloor, SameLists;
    var c := op.current;
    var (b, a) := (Apply(cfg, book, op).0, Consult(cfg, archive, op).0);
    NoPeakSettles(cfg.ar, cs, c);
    StepAgrees(cfg, book, archive, op);
    forall boundary | Settled(cfg.ar, cs + [c], boundary) ensures Agree(b, a, boundary) {
      if boundary < cfg.ar.sub(c) {
        SettledBefore(cfg.ar, cs, c, boundary);
        AgreeIsSameLists(book, archive, cfg.ar.sub(c));
        SameListsStep(cfg, book, archive, op);
        SameListsAgree(b, a, boundary);
      } else {
        AgreeLater(b, a, cfg.ar.sub(c), boundary);
      }
    }
    forall floor | IsFloor(cs + [c], floor) ensures AllFrom(b.table, floor) && AllFrom(a.table, floor) {
      FloorPrefix(cs, c, floor);
      AllFromAfterStep(cfg, book, archive, op, floor);
    }
  }

  lemma {:induction false} RunAgrees(cfg: Config, ops: seq<Op>)
    requires ValidConfig(cfg) && Steady(cfg.ar, ops) && NoPeak(cfg.ar, Readings(ops))
    ensures Run(cfg, ops).1 == Recall(cfg, ops).1
    ensures Synced(cfg.ar, Run(cfg, ops).0, Recall(cfg, ops).0, Readings(ops))
  {
    hide Synced, NoPeak, Apply, Consult;
    if ops == [] {
      EmptySynced(cfg.ar);
    } else {
      var n := |ops| - 1;
      var before, op := ops[..n], ops[n];
      assert Readings(ops) == Readings(before) + [op.current];
      NoPeakSettles(cfg.ar, Readings(before), op.current);
      RunAgrees(cfg, before);
      SyncedStep(cfg, Run(cfg, before).0, Recall(cfg, before).0, Readings(before), op);
    }
  }

  /** Forgetting is invisible: pruning and sweeping change no answer of the budget. */
  lemma ForgettingIsInvisible(cfg: Config, ops: seq<Op>)
    requires ValidConfig(cfg) && Steady(cfg.ar, ops) && NoPeak(cfg.ar, Readings(ops))
    ensures Run(cfg, ops).1 == Recall(cfg, ops).1
  {
    RunAgrees(cfg, ops);
  }

  /** The archive holds exactly what is outstanding. */
  lemma {:induction false} ArchiveIsOutstanding(cfg: Config, ops: seq<Op>, key: string)
    requires ValidConfig(cfg) && Steady(cfg.ar, ops)
    ensures Lookup(Recall(cfg, ops).0.table, key) == Outstanding(ops, Recall(cfg, ops).1, key)
  {
    if ops != [] {
      var n := |ops| - 1;
      ArchiveIsOutstanding(cfg, ops[..n], key);
      assert Recall(cfg, ops).1[..n] == Recall(cfg, ops[..n]).1;
    }
  }

  ghost predicate AllWithinCapacity(cfg: Config, table: map<string, seq<Reservation>>) {
    forall key :: WithinCapacity(cfg.ar, cfg.capacity, Times(Lookup(table, key)))
  }

  lemma RemovalKeepsCapacity(cfg: Config, rs: seq<Reservation>, token: nat)
    requires WithinCapacity(cfg.ar, cfg.capacity, Times(rs))
    ensures WithinCapacity(cfg.ar, cfg.capacity, Times(RemoveToken(rs, token)))
  {
    forall w ensures Count(cfg.ar, Times(RemoveToken(rs, token)), w) <= cfg.capacity {
      CountRemove(cfg.ar, rs, token, w);
    }
  }

  lemma PruningKeepsCapacity(cfg: Config, rs: seq<Reservation>, boundary: int)
    requires WithinCapacity(cfg.ar, cfg.capacity, Times(rs))
    ensures WithinCapacity(cfg.ar, cfg.capacity, Times(Live(rs, boundary)))
  {
    forall w ensures Count(cfg.ar, Times(Live(rs, boundary)), w) <= cfg.capacity {
      CountLive(cfg.ar, rs, boundary, w);
    }
  }

  lemma CapacityUpdated(cfg: Config, t: map<string, seq<Reservation>>, key: string, t': map<string, seq<Reservation>>)
    requires AllWithinCapacity(cfg, t) && WithinCapacity(cfg.ar, cfg.capacity, Times(Lookup(t', key)))
    requires forall k :: k != key ==> Lookup(t', k) == Lookup(t, k)
    ensures AllWithinCapacity(cfg, t')
  {
    forall k ensures WithinCapacity(cfg.ar, cfg.capacity, Times(Lookup(t', k))) {
      assert WithinCapacity(cfg.ar, cfg.capacity, Times(Lookup(t, k)));
    }
  }

  lemma {:induction false} ArchiveWithinCapacity(cfg: Config, ops: seq<Op>)
    requires ValidConfig(cfg) && Steady(cfg.ar, ops)
    ensures AllWithinCapacity(cfg, Recall(cfg, ops).0.table)
  {
    if ops == [] {
      assert Times([]) == [];
    } else {
      var n := |ops| - 1;
      ArchiveWithinCapacity(cfg, ops[..n]);
      var (archive, op) := (Recall(cfg, ops[..n]).0, ops[n]);
      match op
      case Reserve(key, current, notBefore) =>
        if ValidKey(key) {
          var all := Lookup(archive.table, key);
          GrantKeepsCapacity(cfg, all, Consult(cfg, archive, op).1.reservation, Max(current, notBefore));
          CapacityUpdated(cfg, archive.table, key, Consult(cfg, archive, op).0.table);
        }
      case Release(r, _) =>
        RemovalKeepsCapacity(cfg, Lookup(archive.table, r.key), r.token);
        CapacityUpdated(cfg, archive.table, r.key, Consult(cfg, archive, op).0.table);
      case Snapshot(_, _) =>
      case Cleanup(_) =>
    }
  }

  /** Capacity over whole runs: no window ever holds more than `capacity` of the reservations that
      were granted and not released, counting those the budget has long forgotten. */
  lemma CapacityOverWholeRuns(cfg: Config, ops: seq<Op>, key: string)
    requires ValidConfig(cfg) && Steady(cfg.ar, ops) && NoPeak(cfg.ar, Readings(ops))
    ensures WithinCapacity(cfg.ar, cfg.capacity, Times(Outstanding(ops, Run(cfg, ops).1, key)))
  {
    ForgettingIsInvisible(cfg, ops);
    ArchiveIsOutstanding(cfg, ops, key);
    ArchiveWithinCapacity(cfg, ops);
  }

  lemma EmptyListWithinCapacity(cfg: Config)
    ensures WithinCapacity(cfg.ar, cfg.capacity, Times([]))
  {
    assert Times([]) == [];
  }

  lemma SweepKeepsCapacity(cfg: Config, table: map<string, seq<Reservation>>, current: nat)
    requires AllWithinCapacity(cfg, table)
    ensures AllWithinCapacity(cfg, Sweep(cfg.ar, table, current))
  {
    EmptyListWithinCapacity(cfg);
    var swept := Sweep(cfg.ar, table, current);
    forall k ensures WithinCapacity(cfg.ar, cfg.capacity, Times(Lookup(swept, k))) {
      assert WithinCapacity(cfg.ar, cfg.capacity, Times(Lookup(table, k)));
      assert Lookup(swept, k) == [] || Lookup(swept, k) == Lookup(table, k);
    }
  }

  lemma StepKeepsRetainedCapacity(cfg: Config, book: Book, op: Op)
    requires ValidConfig(cfg) && Ends(cfg.ar, op)
    requires AllWithinCapacity(cfg, book.table)
    ensures AllWithinCapacity(cfg, Apply(cfg, book, op).0.table)
  {
    SweepKeepsCapacity(cfg, book.table, op.current);
    var c := MaybeCleanup(cfg.ar, book, op.current).table;
    var after := Apply(cfg, book, op).0.table;
    match op
    case Reserve(key, current, notBefore) =>
      if ValidKey(key) {
        var kept := Live(Lookup(c, key), cfg.ar.sub(current));
        PruningKeepsCapacity(cfg, Lookup(c, key), cfg.ar.sub(current));
        GrantKeepsCapacity(cfg, kept, ReserveStep(cfg, book, key, current, notBefore).1, Max(current, notBefore));
        CapacityUpdated(cfg, c, key, after);
      }
    case Release(r, current) =>
      RemovalKeepsCapacity(cfg, Lookup(c, r.key), r.token);
      ReleaseShape(cfg, book, r, current);
      CapacityUpdated(cfg, c, r.key, after);
    case Snapshot(key, current) =>
      PruningKeepsCapacity(cfg, Lookup(c, key), cfg.ar.sub(current));
      if ValidKey(key) {
        CapacityUpdated(cfg, c, key, after);
      }
    case Cleanup(_) =>
  }

  /** Whatever the clock readings, the reservations the budget still holds are within capacity. */
  lemma {:induction false} RetainedWithinCapacity(cfg: Config, ops: seq<Op>)
    requires ValidConfig(cfg) && Steady(cfg.ar, ops)
    ensures AllWithinCapacity(cfg, Run(cfg, ops).0.table)
  {
    if ops == [] {
      EmptyListWithinCapacity(cfg);
    } else {
      RetainedWithinCapacity(cfg, ops[..|ops| - 1]);
      StepKeepsRetainedCapacity(cfg, Run(cfg, ops[..|ops| - 1]).0, ops[|ops| - 1]);
    }
  }
}
