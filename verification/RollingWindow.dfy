/** The slot arithmetic of a retry budget.

Times are numbered: the n-th representable time is the natural number n, so the
next and the previous representable time are n + 1 and n - 1. All that the slot
search knows about the period is two operations on such numbers, the rounded
`w - per` and the rounded `f + per`. Reading a number as a whole count of ticks and
the operations as exact ones gives the unrounded budget (see Rounding.dfy).
*/
module RollingWindow {

  /** The two rounded operations of a budget: `sub(w)` is `w - per`, `add(f)` is `f + per`. */
  datatype Arith = Arith(sub: int -> int, add: int -> int)

  /** What the budget needs of rounding. The last clause says that the rounded sum
      lands within one representable time of the true exit point. */
  ghost predicate Sound(ar: Arith) {
    && (forall a, b :: a <= b ==> ar.sub(a) <= ar.sub(b))
    && (forall w :: ar.sub(w) <= w)
    && (forall f :: 0 <= f ==> ar.sub(ar.add(f) - 2) < f <= ar.sub(ar.add(f) + 1))
  }

  /** The first time whose window no longer holds `first`. */
  function FirstSlotAfterWindow(ar: Arith, first: nat): (c: nat)
    requires Sound(ar)
    ensures first <= c
    ensures forall t :: c <= t <==> first <= ar.sub(t)
  {
    var candidate := ar.add(first);
    var previous := candidate - 1;
    if ar.sub(previous) >= first then previous
    else if ar.sub(candidate) >= first then candidate
    else candidate + 1
  }

  // ---------------------------------------------------------------- windows

  /** The window ending at `w` is open on the left and closed on the right. */
  predicate InWindow(ar: Arith, s: int, w: int) {
    ar.sub(w) < s <= w
  }

  /** How many of the scheduled times lie in the window ending at `w`. */
  function Count(ar: Arith, times: seq<nat>, w: int): nat {
    if times == [] then 0
    else (if InWindow(ar, times[0], w) then 1 else 0) + Count(ar, times[1..], w)
  }

  ghost predicate WithinCapacity(ar: Arith, capacity: nat, times: seq<nat>) {
    forall w :: Count(ar, times, w) <= capacity
  }

  /** One more reservation at `t` overfills no window. */
  ghost predicate LegalSlot(ar: Arith, capacity: nat, times: seq<nat>, t: int) {
    forall w :: InWindow(ar, t, w) ==> Count(ar, times, w) < capacity
  }

  lemma {:induction false} CountConcat(ar: Arith, a: seq<nat>, b: seq<nat>, w: int)
    ensures Count(ar, a + b, w) == Count(ar, a, w) + Count(ar, b, w)
  {
    if a == [] {
      assert a + b == b;
    } else {
      assert (a + b)[1..] == a[1..] + b;
      CountConcat(ar, a[1..], b, w);
    }
  }

  function Without(times: seq<nat>, j: nat): seq<nat>
    requires j < |times|
  {
    times[..j] + times[j + 1..]
  }

  /** Taking one element out of a list takes it out of the contents and out of every count. */
  lemma CountWithout(ar: Arith, b: seq<nat>, j: nat, w: int)
    requires j < |b|
    ensures multiset(Without(b, j)) == multiset(b) - multiset{b[j]}
    ensures Count(ar, b, w) == Count(ar, Without(b, j), w) + (if InWindow(ar, b[j], w) then 1 else 0)
  {
    assert b == b[..j] + ([b[j]] + b[j + 1..]);
    assert multiset(b) == multiset(b[..j]) + (multiset{b[j]} + multiset(b[j + 1..]));
    CountConcat(ar, b[..j], [b[j]] + b[j + 1..], w);
    CountConcat(ar, b[..j], b[j + 1..], w);
  }

  /** Counting looks only at which times there are and how often, not at their order. */
  lemma {:induction false} CountMonotone(ar: Arith, a: seq<nat>, b: seq<nat>, w: int)
    requires multiset(a) <= multiset(b)
    ensures Count(ar, a, w) <= Count(ar, b, w)
    decreases |a|
  {
    if a != [] {
      hide Count, Without;
      assert a[0] in multiset(a);
      var j :| 0 <= j < |b| && b[j] == a[0];
      CountWithout(ar, b, j, w);
      CountWithout(ar, a, 0, w);
      ShorterWithout(a, 0);
      CountMonotone(ar, Without(a, 0), Without(b, j), w);
    }
  }

  lemma ShorterWithout(times: seq<nat>, j: nat)
    requires j < |times|
    ensures |Without(times, j)| < |times|
  {
  }

  lemma CountPermuted(ar: Arith, a: seq<nat>, b: seq<nat>, w: int)
    requires multiset(a) == multiset(b)
    ensures Count(ar, a, w) == Count(ar, b, w)
  {
    CountMonotone(ar, a, b, w);
    CountMonotone(ar, b, a, w);
  }

  /** On a list within capacity, a slot is legal exactly when taking it keeps capacity. */
  lemma LegalIffCapacityKept(ar: Arith, capacity: nat, times: seq<nat>, t: nat)
    requires WithinCapacity(ar, capacity, times)
    ensures LegalSlot(ar, capacity, times, t) <==> WithinCapacity(ar, capacity, times + [t])
  {
    forall w ensures Count(ar, times + [t], w) == Count(ar, times, w) + (if InWindow(ar, t, w) then 1 else 0) {
      CountConcat(ar, times, [t], w);
    }
    if WithinCapacity(ar, capacity, times + [t]) {
      forall w | InWindow(ar, t, w) ensures Count(ar, times, w) < capacity {
        assert Count(ar, times + [t], w) <= capacity;
      }
    }
  }

  // ---------------------------------------------------------------- the earliest slot

  /** A time at or after every exit point. */
  ghost function Horizon(ar: Arith, times: seq<nat>): (h: nat)
    requires Sound(ar)
    ensures forall i :: 0 <= i < |times| ==> FirstSlotAfterWindow(ar, times[i]) <= h
  {
    if times == [] then 0
    else
      var x, y := FirstSlotAfterWindow(ar, times[0]), Horizon(ar, times[1..]);
      if x <= y then y else x
  }

  lemma {:induction false} CountPositive(ar: Arith, times: seq<nat>, w: int)
    requires Count(ar, times, w) > 0
    ensures exists i :: 0 <= i < |times| && InWindow(ar, times[i], w)
  {
    if !InWindow(ar, times[0], w) {
      CountPositive(ar, times[1..], w);
      var i :| 0 <= i < |times[1..]| && InWindow(ar, times[1..][i], w);
      assert InWindow(ar, times[i + 1], w);
    }
  }

  lemma IllegalBeforeHorizon(ar: Arith, capacity: nat, times: seq<nat>, t: nat)
    requires Sound(ar) && capacity > 0
    requires !LegalSlot(ar, capacity, times, t)
    ensures t < Horizon(ar, times)
  {
    var w :| InWindow(ar, t, w) && Count(ar, times, w) >= capacity;
    CountPositive(ar, times, w);
    var i :| 0 <= i < |times| && InWindow(ar, times[i], w);
    assert ar.sub(t) < times[i];
  }

  /** The specification of the slot search: walk up one representable time at a time. */
  ghost function Earliest(ar: Arith, capacity: nat, times: seq<nat>, from: nat): (slot: nat)
    requires Sound(ar) && capacity > 0
    ensures from <= slot && LegalSlot(ar, capacity, times, slot)
    ensures forall t :: from <= t < slot ==> !LegalSlot(ar, capacity, times, t)
    decreases if from < Horizon(ar, times) then Horizon(ar, times) - from else 0
  {
    if LegalSlot(ar, capacity, times, from) then from
    else
      IllegalBeforeHorizon(ar, capacity, times, from);
      Earliest(ar, capacity, times, from + 1)
  }

  /** Whatever agrees on legality from `from` on has the same earliest slot. */
  lemma EarliestDependsOnLegality(ar: Arith, capacity: nat, a: seq<nat>, b: seq<nat>, from: nat)
    requires Sound(ar) && capacity > 0
    requires forall t :: from <= t ==> (LegalSlot(ar, capacity, a, t) <==> LegalSlot(ar, capacity, b, t))
    ensures Earliest(ar, capacity, a, from) == Earliest(ar, capacity, b, from)
  {
    var x, y := Earliest(ar, capacity, a, from), Earliest(ar, capacity, b, from);
    assert LegalSlot(ar, capacity, a, x) && LegalSlot(ar, capacity, b, x);
    assert LegalSlot(ar, capacity, b, y) && LegalSlot(ar, capacity, a, y);
  }

  // ---------------------------------------------------------------- sorted lists

  predicate Sorted(times: seq<nat>) {
    forall i, j :: 0 <= i < j < |times| ==> times[i] <= times[j]
  }

  /** How many times are at most `x`: on a sorted list, the index `bisect_right` finds. */
  function BisectRight(times: seq<nat>, x: int): (k: nat)
    ensures k <= |times|
    ensures Sorted(times) ==> forall i :: 0 <= i < |times| ==> (times[i] <= x <==> i < k)
  {
    if times == [] then 0
    else
      var k := BisectRight(times[1..], x);
      assert Sorted(times) ==> Sorted(times[1..]);
      assert forall i :: 0 < i < |times| ==> times[i] == times[1..][i - 1];
      (if times[0] <= x then 1 else 0) + k
  }

  /** Times are whole numbers, so "less than x" is "at most x - 1". */
  function BisectLeft(times: seq<nat>, x: int): nat {
    BisectRight(times, x - 1)
  }

  lemma {:induction false} CountBetween(ar: Arith, times: seq<nat>, w: int)
    requires Sound(ar)
    ensures Count(ar, times, w) == BisectRight(times, w) - BisectRight(times, ar.sub(w))
  {
    if times != [] {
      CountBetween(ar, times[1..], w);
    }
  }

  /** The interval that one block of `capacity` consecutive reservations closes. */
  predicate Forbids(ar: Arith, capacity: nat, times: seq<nat>, i: nat, t: int)
    requires Sound(ar) && 0 < capacity && i + capacity <= |times|
  {
    var first, last := times[i], times[i + capacity - 1];
    ar.sub(last) < first && ar.sub(last) < t < FirstSlotAfterWindow(ar, first)
  }

  /** A block that forbids `t` overfills the window that ends at its last member or at `t`. */
  lemma ForbiddenIsIllegal(ar: Arith, capacity: nat, times: seq<nat>, i: nat, t: nat)
    requires Sound(ar) && 0 < capacity && Sorted(times) && i + capacity <= |times|
    requires Forbids(ar, capacity, times, i, t)
    ensures !LegalSlot(ar, capacity, times, t)
  {
    var last := times[i + capacity - 1];
    var w := if t <= last then last else t;
    assert InWindow(ar, t, w) by { assert ar.sub(t) < times[i]; }
    CountBetween(ar, times, w);
    assert times[i] > ar.sub(w) && last <= w;
  }

  /** An overfull window holds a block of `capacity` consecutive members, and that block forbids `t`. */
  lemma IllegalIsForbidden(ar: Arith, capacity: nat, times: seq<nat>, t: nat) returns (i: nat)
    requires Sound(ar) && 0 < capacity && Sorted(times)
    requires !LegalSlot(ar, capacity, times, t)
    ensures i + capacity <= |times| && Forbids(ar, capacity, times, i, t)
  {
    var w :| InWindow(ar, t, w) && Count(ar, times, w) >= capacity;
    CountBetween(ar, times, w);
    i := BisectRight(times, ar.sub(w));
    assert times[i] > ar.sub(w) && times[i + capacity - 1] <= w;
  }

  /** A slot is legal exactly when no block forbids it, for any sorted list, even an overfull one. */
  lemma LegalIffNoBlockForbids(ar: Arith, capacity: nat, times: seq<nat>, t: nat)
    requires Sound(ar) && 0 < capacity && Sorted(times)
    ensures LegalSlot(ar, capacity, times, t)
       <==> forall i: nat :: i + capacity <= |times| ==> !Forbids(ar, capacity, times, i, t)
  {
    hide LegalSlot, Forbids, Sorted;
    forall i: nat | i + capacity <= |times| && Forbids(ar, capacity, times, i, t)
      ensures !LegalSlot(ar, capacity, times, t)
    {
      ForbiddenIsIllegal(ar, capacity, times, i, t);
    }
    if !LegalSlot(ar, capacity, times, t) {
      var i := IllegalIsForbidden(ar, capacity, times, t);
    }
  }

  /** How many exit points still lie beyond `t`: what each jump of the search reduces. */
  ghost function Ahead(ar: Arith, times: seq<nat>, t: int): nat
    requires Sound(ar)
  {
    if times == [] then 0
    else (if FirstSlotAfterWindow(ar, times[0]) > t then 1 else 0) + Ahead(ar, times[1..], t)
  }

  lemma {:induction false} AheadFalls(ar: Arith, times: seq<nat>, t: int, u: int)
    requires Sound(ar) && t <= u
    ensures Ahead(ar, times, u) <= Ahead(ar, times, t)
  {
    hide Sound, FirstSlotAfterWindow;
    if times != [] {
      AheadFalls(ar, times[1..], t, u);
    }
  }

  lemma {:induction false} JumpReducesAhead(ar: Arith, times: seq<nat>, i: nat, t: int, u: int)
    requires Sound(ar) && i < |times| && t < FirstSlotAfterWindow(ar, times[i]) <= u
    ensures Ahead(ar, times, u) < Ahead(ar, times, t)
  {
    hide Sound, FirstSlotAfterWindow;
    if i == 0 {
      AheadFalls(ar, times[1..], t, u);
    } else {
      JumpReducesAhead(ar, times[1..], i - 1, t, u);
    }
  }

  /** No legal slot from `from` on lies before `candidate`. */
  ghost predicate Skippable(ar: Arith, capacity: nat, times: seq<nat>, from: nat, candidate: nat) {
    from <= candidate && forall t :: from <= t < candidate ==> !LegalSlot(ar, capacity, times, t)
  }

  ghost predicate Unforbidden(ar: Arith, capacity: nat, times: seq<nat>, blocks: int, t: int)
    requires Sound(ar) && 0 < capacity
  {
    forall i: nat :: i < blocks && i + capacity <= |times| ==> !Forbids(ar, capacity, times, i, t)
  }

  /** Jumping to the end of a forbidden interval skips no legal slot and leaves fewer exit points ahead. */
  lemma JumpIsSafe(ar: Arith, capacity: nat, times: seq<nat>, from: nat, candidate: nat, i: nat)
    requires Sound(ar) && 0 < capacity && Sorted(times) && i + capacity <= |times|
    requires Skippable(ar, capacity, times, from, candidate) && Forbids(ar, capacity, times, i, candidate)
    ensures candidate < FirstSlotAfterWindow(ar, times[i])
    ensures Skippable(ar, capacity, times, from, FirstSlotAfterWindow(ar, times[i]))
    ensures Ahead(ar, times, FirstSlotAfterWindow(ar, times[i])) < Ahead(ar, times, candidate)
  {
    var exit := FirstSlotAfterWindow(ar, times[i]);
    forall t | candidate <= t < exit ensures !LegalSlot(ar, capacity, times, t) {
      assert Forbids(ar, capacity, times, i, t);
      LegalIffNoBlockForbids(ar, capacity, times, t);
    }
    JumpReducesAhead(ar, times, i, candidate, exit);
  }

  lemma {:induction false} AheadAtMost(ar: Arith, times: seq<nat>, t: int)
    requires Sound(ar)
    ensures Ahead(ar, times, t) <= |times|
  {
    hide Sound, FirstSlotAfterWindow;
    if times != [] {
      AheadAtMost(ar, times[1..], t);
    }
  }

  /** The slot search: jump out of every forbidden interval, rescan until a whole scan finds none. It
      jumps at most once for each scheduled time, however far the slot is, and scans once more. */
  method FirstLegalSlot(ar: Arith, capacity: nat, from: nat, times: seq<nat>)
    returns (candidate: nat, ghost jumps: nat, ghost scans: nat)
    requires Sound(ar) && 0 < capacity && Sorted(times)
    ensures candidate == Earliest(ar, capacity, times, from)
    ensures jumps <= |times| && scans <= |times| + 1
  {
    hide Sound, FirstSlotAfterWindow, Earliest, Horizon, Ahead, LegalSlot, Sorted;
    candidate := from;
    jumps, scans := 0, 0;
    AheadAtMost(ar, times, from);
    var changed := true;
    while changed
      invariant Skippable(ar, capacity, times, from, candidate)
      invariant !changed ==> Unforbidden(ar, capacity, times, |times|, candidate)
      invariant jumps + Ahead(ar, times, candidate) <= |times| && scans <= jumps + if changed then 0 else 1
      decreases Ahead(ar, times, candidate), changed
    {
      changed := false;
      ghost var scanned, jumped := candidate, jumps;
      scans := scans + 1;
      var index := 0;
      while index < |times| - capacity + 1
        invariant 0 <= index
        invariant Skippable(ar, capacity, times, from, candidate)
        invariant !changed ==> candidate == scanned && Unforbidden(ar, capacity, times, index, candidate)
        invariant changed ==> Ahead(ar, times, candidate) < Ahead(ar, times, scanned)
        invariant jumps + Ahead(ar, times, candidate) <= |times|
            && (if changed then jumped < jumps else jumped == jumps)
      {
        var first := times[index];
        var last := times[index + capacity - 1];
        var forbiddenStart := ar.sub(last);
        if first > forbiddenStart {
          var forbiddenEnd := FirstSlotAfterWindow(ar, first);
          if forbiddenStart < candidate < forbiddenEnd {
            JumpIsSafe(ar, capacity, times, from, candidate, index);
            candidate := forbiddenEnd;
            changed := true;
            jumps := jumps + 1;
          }
        }
        index := index + 1;
      }
    }
    LegalIffNoBlockForbids(ar, capacity, times, candidate);
  }
}
