/** What each operation of a retry budget does to its table of reservations. */
module BudgetState {
  import opened RollingWindow
  import opened LegalityTests

  datatype Config = Config(ar: Arith, capacity: nat)

  ghost predicate ValidConfig(cfg: Config) {
    Sound(cfg.ar) && 0 < cfg.capacity
  }

  datatype Reservation = Reservation(token: nat, key: string, scheduledAt: nat)

  /** The budget's fields. `table` keeps the reservations of a key in the order they were made. */
  datatype Book = Book(table: map<string, seq<Reservation>>, nextToken: nat, opCount: nat)

  const EMPTY_BOOK := Book(map[], 1, 0)
  const CLEANUP_INTERVAL := 100

  /** `nextAvailableIn` counts representable times; it is zero exactly when no wait is needed. */
  datatype Snapshot = SnapshotOf(key: string, capacity: nat, active: nat, available: nat, queued: nat,
      nextAvailableIn: nat)

  // ---------------------------------------------------------------- lists of reservations

  function Times(rs: seq<Reservation>): (ts: seq<nat>)
    ensures |ts| == |rs| && forall i :: 0 <= i < |rs| ==> ts[i] == rs[i].scheduledAt
  {
    seq(|rs|, i requires 0 <= i < |rs| => rs[i].scheduledAt)
  }

  /** The reservations after `boundary`, in their order. */
  function Live(rs: seq<Reservation>, boundary: int): seq<Reservation> {
    if rs == [] then []
    else (if rs[0].scheduledAt > boundary then [rs[0]] else []) + Live(rs[1..], boundary)
  }

  /** The list without the first reservation that carries `token`. */
  function RemoveToken(rs: seq<Reservation>, token: nat): seq<Reservation> {
    if rs == [] then []
    else if rs[0].token == token then rs[1..]
    else [rs[0]] + RemoveToken(rs[1..], token)
  }

  function Lookup(table: map<string, seq<Reservation>>, key: string): seq<Reservation> {
    if key in table then table[key] else []
  }

  // ---------------------------------------------------------------- operations

  function Max(a: nat, b: nat): nat {
    if b > a then b else a
  }

  predicate IsSpace(c: char) {
    var n := c as int;
    9 <= n <= 13 || 28 <= n <= 32 || n == 0x85 || n == 0xA0 || n == 0x1680 || 0x2000 <= n <= 0x200A ||
    n == 0x2028 || n == 0x2029 || n == 0x202F || n == 0x205F || n == 0x3000
  }

  /** A key with at least one character that is not white space. */
  predicate ValidKey(key: string) {
    exists i :: 0 <= i < |key| && !IsSpace(key[i])
  }

  predicate Expired(ar: Arith, rs: seq<Reservation>, current: nat) {
    forall i :: 0 <= i < |rs| ==> rs[i].scheduledAt <= ar.sub(current)
  }

  function Sweep(ar: Arith, table: map<string, seq<Reservation>>, current: nat): map<string, seq<Reservation>> {
    map key | key in table && !Expired(ar, table[key], current) :: table[key]
  }

  function MaybeCleanup(ar: Arith, book: Book, current: nat): Book {
    if book.opCount + 1 >= CLEANUP_INTERVAL
    then Book(Sweep(ar, book.table, current), book.nextToken, 0)
    else Book(book.table, book.nextToken, book.opCount + 1)
  }

  ghost function ReserveStep(cfg: Config, book: Book, key: string, current: nat, notBefore: nat): (Book, Reservation)
    requires ValidConfig(cfg)
  {
    var b := MaybeCleanup(cfg.ar, book, current);
    var kept := Live(Lookup(b.table, key), cfg.ar.sub(current));
    var r := Reservation(b.nextToken, key, Earliest(cfg.ar, cfg.capacity, Times(kept), Max(current, notBefore)));
    (Book(b.table[key := kept + [r]], b.nextToken + 1, b.opCount), r)
  }

  function ReleaseStep(cfg: Config, book: Book, r: Reservation, current: nat): Book {
    var b := MaybeCleanup(cfg.ar, book, current);
    if Lookup(b.table, r.key) == [] then b
    else
      var rest := RemoveToken(b.table[r.key], r.token);
      b.(table := if rest == [] then b.table - {r.key} else b.table[r.key := rest])
  }

  /** How many times lie after `t`. */
  function CountAfter(times: seq<nat>, t: nat): nat {
    if times == [] then 0 else (if times[0] > t then 1 else 0) + CountAfter(times[1..], t)
  }

  /** What a snapshot says about a list of reservation times. */
  ghost function View(cfg: Config, key: string, times: seq<nat>, current: nat): Snapshot
    requires ValidConfig(cfg) && cfg.ar.sub(current) < current
  {
    SnapshotOf(key, cfg.capacity,
             Count(cfg.ar, times, current),
             Available(cfg.ar, cfg.capacity, times, current),
             CountAfter(times, current),
             Earliest(cfg.ar, cfg.capacity, times, current) - current)
  }

  ghost function SnapshotStep(cfg: Config, book: Book, key: string, current: nat): (Book, Snapshot)
    requires ValidConfig(cfg) && cfg.ar.sub(current) < current
  {
    var b := MaybeCleanup(cfg.ar, book, current);
    if key !in b.table then (b, SnapshotOf(key, cfg.capacity, 0, cfg.capacity, 0, 0))
    else
      var kept := Live(b.table[key], cfg.ar.sub(current));
      (b.(table := b.table[key := kept]), View(cfg, key, Times(kept), current))
  }

  function CleanupStep(cfg: Config, book: Book, current: nat): Book {
    book.(table := Sweep(cfg.ar, book.table, current))
  }

  // ---------------------------------------------------------------- facts about the lists

  lemma {:induction false} LiveMembers(rs: seq<Reservation>, boundary: int)
    ensures forall r :: r in Live(rs, boundary) <==> r in rs && r.scheduledAt > boundary
  {
    if rs != [] {
      LiveMembers(rs[1..], boundary);
      assert forall r :: r in rs <==> r == rs[0] || r in rs[1..];
    }
  }

  lemma {:induction false} LiveConcat(a: seq<Reservation>, b: seq<Reservation>, boundary: int)
    ensures Live(a + b, boundary) == Live(a, boundary) + Live(b, boundary)
  {
    if a == [] {
      assert a + b == b;
    } else {
      assert (a + b)[1..] == a[1..] + b;
      LiveConcat(a[1..], b, boundary);
    }
  }

  lemma {:induction false} LiveLive(rs: seq<Reservation>, low: int, high: int)
    requires low <= high
    ensures Live(Live(rs, low), high) == Live(rs, high)
  {
    if rs != [] {
      LiveConcat(if rs[0].scheduledAt > low then [rs[0]] else [], Live(rs[1..], low), high);
      LiveLive(rs[1..], low, high);
    }
  }

  lemma {:induction false} LiveAll(rs: seq<Reservation>, boundary: int)
    requires forall r :: r in rs ==> r.scheduledAt > boundary
    ensures Live(rs, boundary) == rs
  {
    if rs != [] {
      LiveAll(rs[1..], boundary);
    }
  }

  lemma {:induction false} LiveNone(rs: seq<Reservation>, boundary: int)
    requires forall i :: 0 <= i < |rs| ==> rs[i].scheduledAt <= boundary
    ensures Live(rs, boundary) == []
  {
    if rs != [] {
      LiveNone(rs[1..], boundary);
    }
  }

  /** Tokens rise along a list, and all are below the next one to be handed out. */
  predicate TokensRise(rs: seq<Reservation>, nextToken: nat) {
    && (forall i, j :: 0 <= i < j < |rs| ==> rs[i].token < rs[j].token)
    && (forall i :: 0 <= i < |rs| ==> rs[i].token < nextToken)
  }

  lemma {:induction false} RemoveTokenMembers(rs: seq<Reservation>, token: nat)
    ensures forall r :: r in RemoveToken(rs, token) ==> r in rs
    ensures forall r :: r in rs && r.token != token ==> r in RemoveToken(rs, token)
  {
    if rs != [] && rs[0].token != token {
      RemoveTokenMembers(rs[1..], token);
    }
  }

  lemma RisesCons(r: Reservation, rs: seq<Reservation>, nextToken: nat)
    requires TokensRise(rs, nextToken) && r.token < nextToken
    requires forall x :: x in rs ==> r.token < x.token
    ensures TokensRise([r] + rs, nextToken)
  {
    assert forall i :: 0 <= i < |rs| ==> rs[i] in rs;
  }

  lemma RisesTail(rs: seq<Reservation>, nextToken: nat)
    requires TokensRise(rs, nextToken) && rs != []
    ensures TokensRise(rs[1..], nextToken) && rs[0].token < nextToken
    ensures forall x :: x in rs[1..] ==> rs[0].token < x.token
  {
  }

  lemma {:induction false} RemoveTokenRises(rs: seq<Reservation>, token: nat, nextToken: nat)
    requires TokensRise(rs, nextToken)
    ensures TokensRise(RemoveToken(rs, token), nextToken)
  {
    hide TokensRise;
    if rs != [] {
      RisesTail(rs, nextToken);
      if rs[0].token != token {
        RemoveTokenRises(rs[1..], token, nextToken);
        RemoveTokenMembers(rs[1..], token);
        RisesCons(rs[0], RemoveToken(rs[1..], token), nextToken);
      }
    }
  }

  lemma {:induction false} LiveRises(rs: seq<Reservation>, boundary: int, nextToken: nat)
    requires TokensRise(rs, nextToken)
    ensures TokensRise(Live(rs, boundary), nextToken)
  {
    hide TokensRise;
    if rs != [] {
      RisesTail(rs, nextToken);
      LiveRises(rs[1..], boundary, nextToken);
      LiveMembers(rs[1..], boundary);
      RisesCons(rs[0], Live(rs[1..], boundary), nextToken);
      assert [] + Live(rs[1..], boundary) == Live(rs[1..], boundary);
    } else {
      assert Live(rs, boundary) == rs;
    }
  }

  lemma {:induction false} RemoveAbsent(rs: seq<Reservation>, token: nat)
    requires forall r :: r in rs ==> r.token != token
    ensures RemoveToken(rs, token) == rs
  {
    if rs != [] {
      RemoveAbsent(rs[1..], token);
    }
  }

  lemma LiveCons(r: Reservation, rs: seq<Reservation>, boundary: int)
    ensures Live([r] + rs, boundary) == if r.scheduledAt > boundary then [r] + Live(rs, boundary)
        else Live(rs, boundary)
  {
    assert ([r] + rs)[1..] == rs;
  }

  lemma RemoveCons(r: Reservation, rs: seq<Reservation>, token: nat)
    ensures RemoveToken([r] + rs, token) == if r.token == token then rs else [r] + RemoveToken(rs, token)
  {
    assert ([r] + rs)[1..] == rs;
  }

  /** Releasing and forgetting commute, because a token names one reservation. */
  lemma {:induction false} LiveRemove(rs: seq<Reservation>, token: nat, boundary: int)
    requires forall i, j :: 0 <= i < j < |rs| ==> rs[i].token < rs[j].token
    ensures Live(RemoveToken(rs, token), boundary) == RemoveToken(Live(rs, boundary), token)
  {
    if rs != [] {
      var r, rest := rs[0], rs[1..];
      LiveRemove(rest, token, boundary);
      LiveCons(r, rest, boundary);
      LiveCons(r, RemoveToken(rest, token), boundary);
      RemoveCons(r, rest, token);
      RemoveCons(r, Live(rest, boundary), token);
      assert rs == [r] + rest;
      if r.token == token {
        LiveMembers(rest, boundary);
        RemoveAbsent(Live(rest, boundary), token);
      }
    }
  }

  /** Forgetting what lies before every window of interest changes no count. */
  lemma {:induction false} CountLive(ar: Arith, rs: seq<Reservation>, boundary: int, w: int)
    ensures Count(ar, Times(Live(rs, boundary)), w) <= Count(ar, Times(rs), w)
    ensures boundary <= ar.sub(w) ==> Count(ar, Times(Live(rs, boundary)), w) == Count(ar, Times(rs), w)
  {
    if rs != [] {
      CountLive(ar, rs[1..], boundary, w);
      var head := if rs[0].scheduledAt > boundary then [rs[0]] else [];
      assert Times(Live(rs, boundary)) == Times(head) + Times(Live(rs[1..], boundary));
      CountConcat(ar, Times(head), Times(Live(rs[1..], boundary)), w);
      assert Times(rs)[1..] == Times(rs[1..]);
    }
  }

  lemma {:induction false} CountRemove(ar: Arith, rs: seq<Reservation>, token: nat, w: int)
    ensures Count(ar, Times(RemoveToken(rs, token)), w) <= Count(ar, Times(rs), w)
  {
    if rs != [] {
      assert Times(rs)[1..] == Times(rs[1..]);
      if rs[0].token != token {
        CountRemove(ar, rs[1..], token, w);
        assert Times(RemoveToken(rs, token)) == Times([rs[0]]) + Times(RemoveToken(rs[1..], token));
        CountConcat(ar, Times([rs[0]]), Times(RemoveToken(rs[1..], token)), w);
      }
    }
  }

  /** One granted slot more keeps a list within capacity. */
  lemma GrantKeepsCapacity(cfg: Config, rs: seq<Reservation>, r: Reservation, from: nat)
    requires ValidConfig(cfg) && WithinCapacity(cfg.ar, cfg.capacity, Times(rs))
    requires r.scheduledAt == Earliest(cfg.ar, cfg.capacity, Times(rs), from)
    ensures WithinCapacity(cfg.ar, cfg.capacity, Times(rs + [r]))
  {
    LegalIffCapacityKept(cfg.ar, cfg.capacity, Times(rs), r.scheduledAt);
    assert Times(rs + [r]) == Times(rs) + [r.scheduledAt];
  }

  /** The earliest slot from `current` on does not depend on reservations before its window. */
  lemma EarliestIgnoresExpired(cfg: Config, rs: seq<Reservation>, current: nat, from: nat)
    requires ValidConfig(cfg) && current <= from
    ensures Earliest(cfg.ar, cfg.capacity, Times(Live(rs, cfg.ar.sub(current))), from)
         == Earliest(cfg.ar, cfg.capacity, Times(rs), from)
  {
    var kept := Live(rs, cfg.ar.sub(current));
    forall t | from <= t
      ensures LegalSlot(cfg.ar, cfg.capacity, Times(kept), t) <==> LegalSlot(cfg.ar, cfg.capacity, Times(rs), t)
    {
      forall w | InWindow(cfg.ar, t, w) ensures Count(cfg.ar, Times(kept), w) == Count(cfg.ar, Times(rs), w) {
        CountLive(cfg.ar, rs, cfg.ar.sub(current), w);
      }
    }
    EarliestDependsOnLegality(cfg.ar, cfg.capacity, Times(kept), Times(rs), from);
  }
}
