/** The second legality test of the budget, which looks at a few window ends only, and the
count of immediately available slots that is built on it. */
module LegalityTests {
  import opened RollingWindow

  /** The window ends the test looks at: `t` itself, and the scheduled times after `t` and
      before the rounded `t + per`. */
  ghost predicate LegalByEnds(ar: Arith, capacity: nat, times: seq<nat>, t: nat) {
    && Count(ar, times, t) < capacity
    && forall i :: 0 <= i < |times| && t < times[i] < ar.add(t) ==> Count(ar, times, times[i]) < capacity
  }

  /** Those window ends as a slice of the sorted list, empty when its bounds cross. */
  function WindowEnds(ar: Arith, times: seq<nat>, t: nat): (ends: seq<nat>)
    ensures |ends| > 0 && ends[0] == t
    ensures Sorted(times) ==> forall i :: 0 <= i < |times| && t < times[i] < ar.add(t) ==> times[i] in ends
    ensures Sorted(times) ==> forall k :: 1 <= k < |ends| ==> ends[k] in times && t < ends[k] < ar.add(t)
  {
    var futureStart, futureEnd := BisectRight(times, t), BisectLeft(times, ar.add(t));
    var future := if futureStart <= futureEnd then times[futureStart..futureEnd] else [];
    assert forall i :: futureStart <= i < futureEnd ==> future[i - futureStart] == times[i];
    [t] + future
  }

  method IsLegalSlot(ar: Arith, capacity: nat, candidate: nat, times: seq<nat>) returns (legal: bool)
    requires Sound(ar) && Sorted(times)
    ensures legal <==> LegalByEnds(ar, capacity, times, candidate)
  {
    hide Count, BisectRight, WindowEnds;
    var windowEnds := WindowEnds(ar, times, candidate);
    for k := 0 to |windowEnds|
      invariant forall j :: 0 <= j < k ==> Count(ar, times, windowEnds[j]) < capacity
    {
      var left := BisectRight(times, ar.sub(windowEnds[k]));
      var right := BisectRight(times, windowEnds[k]);
      CountBetween(ar, times, windowEnds[k]);
      if right - left >= capacity {
        return false;
      }
    }
    return true;
  }

  // ---------------------------------------------------------------- agreement of the two tests

  /** The last scheduled time up to `w`, or `t` if that is later. */
  ghost function LastEnd(times: seq<nat>, t: nat, w: int): (u: nat)
    requires t <= w
    ensures t <= u <= w
    ensures u == t || u in times
    ensures forall i :: 0 <= i < |times| && times[i] <= w ==> times[i] <= u
  {
    if times == [] then t
    else
      var u := LastEnd(times[1..], t, w);
      if u < times[0] <= w then times[0] else u
  }

  /** Moving a window end back over a stretch without reservations drops none of them. */
  lemma {:induction false} CountAtEarlierEnd(ar: Arith, times: seq<nat>, u: int, w: int)
    requires Sound(ar) && u <= w
    requires forall i :: 0 <= i < |times| && times[i] <= w ==> times[i] <= u
    ensures Count(ar, times, w) <= Count(ar, times, u)
  {
    if times != [] {
      CountAtEarlierEnd(ar, times[1..], u, w);
    }
  }

  /** A reservation at `w`, after `t`, is in the window that ends with it, and has not begun at `t`. */
  predicate IsLater(ar: Arith, t: nat, w: int) {
    t < w && ar.sub(w) < w
  }

  /** The earlier of the rounded `t + per` and the exit point of `t`. */
  function FirstEnd(ar: Arith, t: nat): int
    requires Sound(ar)
  {
    var exit := FirstSlotAfterWindow(ar, t);
    if ar.add(t) < exit then ar.add(t) else exit
  }

  /** The rounded `t + per` serves as the exit point of `t`: it is that point, or no window that ends
      between the two and after `t` holds anything. */
  predicate SumServes(ar: Arith, t: nat)
    requires Sound(ar)
  {
    ar.add(t) == FirstSlotAfterWindow(ar, t) || !IsLater(ar, t, FirstEnd(ar, t))
  }

  lemma NothingInWindow(ar: Arith, times: seq<nat>, w: int)
    requires ar.sub(w) >= w
    ensures Count(ar, times, w) == 0
  {
    if Count(ar, times, w) > 0 {
      CountPositive(ar, times, w);
    }
  }

  /** The rounded sum and the exit point are at most one apart: there is no other time between them. */
  lemma BetweenSumAndExit(ar: Arith, capacity: nat, times: seq<nat>, t: nat, u: nat)
    requires Sound(ar) && 0 < capacity && SumServes(ar, t) && t < u
    requires ar.add(t) <= u < FirstSlotAfterWindow(ar, t) || FirstSlotAfterWindow(ar, t) <= u < ar.add(t)
    ensures Count(ar, times, u) < capacity
  {
    var sum, exit := ar.add(t), FirstSlotAfterWindow(ar, t);
    assert exit <= sum + 1 <==> t <= ar.sub(sum + 1);
    assert exit <= sum - 2 <==> t <= ar.sub(sum - 2);
    assert u == FirstEnd(ar, t);
    NothingInWindow(ar, times, u);
  }

  /** Where the rounded sum serves as the exit point, looking at the few window ends is enough. */
  lemma TestsAgree(ar: Arith, capacity: nat, times: seq<nat>, t: nat)
    requires Sound(ar) && 0 < capacity && SumServes(ar, t)
    ensures LegalByEnds(ar, capacity, times, t) <==> LegalSlot(ar, capacity, times, t)
  {
    hide SumServes;
    if LegalByEnds(ar, capacity, times, t) {
      forall w | InWindow(ar, t, w) ensures Count(ar, times, w) < capacity {
        var u := LastEnd(times, t, w);
        CountAtEarlierEnd(ar, times, u, w);
        assert u == t || exists i :: 0 <= i < |times| && times[i] == u;
        if t < u && ar.add(t) <= u {
          BetweenSumAndExit(ar, capacity, times, t, u);
        }
      }
    }
    if LegalSlot(ar, capacity, times, t) {
      if Count(ar, times, t) > 0 {
        CountPositive(ar, times, t);
        assert InWindow(ar, t, t);
      }
      forall i | 0 <= i < |times| && t < times[i] < ar.add(t) ensures Count(ar, times, times[i]) < capacity {
        if FirstSlotAfterWindow(ar, t) <= times[i] {
          BetweenSumAndExit(ar, capacity, times, t, times[i]);
        } else {
          assert InWindow(ar, t, times[i]);
        }
      }
    }
  }

  function Copies<T>(t: T, n: nat): (s: seq<T>)
    ensures |s| == n && forall i :: 0 <= i < n ==> s[i] == t
  {
    seq(n, _ => t)
  }

  lemma {:induction false} CountCopies(ar: Arith, t: nat, n: nat, w: int)
    ensures Count(ar, Copies(t, n), w) == if InWindow(ar, t, w) then n else 0
  {
    if n > 0 {
      assert Copies(t, n)[1..] == Copies(t, n - 1);
      CountCopies(ar, t, n - 1, w);
    }
  }

  ghost predicate AgreeAt(ar: Arith, capacity: nat, times: seq<nat>, t: nat) {
    LegalByEnds(ar, capacity, times, t) <==> LegalSlot(ar, capacity, times, t)
  }

  /** The two tests agree on every legal schedule exactly when the rounded `t + per` serves as the exit
      point of `t`. Otherwise `capacity` reservations at one neighbouring time tell them apart. */
  lemma TestsAgreeIffSumServes(ar: Arith, capacity: nat, t: nat)
    requires Sound(ar) && 0 < capacity
    ensures (forall times: seq<nat> :: Sorted(times) && WithinCapacity(ar, capacity, times) ==>
                                         AgreeAt(ar, capacity, times, t))
       <==> SumServes(ar, t)
  {
    var exit := FirstSlotAfterWindow(ar, t);
    if SumServes(ar, t) {
      forall times: seq<nat> ensures AgreeAt(ar, capacity, times, t) {
        TestsAgree(ar, capacity, times, t);
      }
    } else {
      var w: nat := FirstEnd(ar, t);
      var times := Copies(w, capacity);
      forall x ensures Count(ar, times, x) == if InWindow(ar, w, x) then capacity else 0 {
        CountCopies(ar, w, capacity, x);
      }
      assert WithinCapacity(ar, capacity, times);
      assert times[0] == w && InWindow(ar, w, w) && !InWindow(ar, w, t);
      if ar.add(t) < exit {
        assert InWindow(ar, t, w) && !LegalSlot(ar, capacity, times, t);
        assert LegalByEnds(ar, capacity, times, t);
      } else {
        assert !LegalByEnds(ar, capacity, times, t);
        assert forall x :: InWindow(ar, t, x) ==> x < w;
        assert LegalSlot(ar, capacity, times, t);
      }
      assert !AgreeAt(ar, capacity, times, t);
    }
  }

  // ---------------------------------------------------------------- sorting

  lemma InsertedIsSorted(times: seq<nat>, k: nat, t: nat)
    requires Sorted(times) && k <= |times| && forall i :: 0 <= i < |times| ==> (times[i] <= t <==> i < k)
    ensures Sorted(times[..k] + [t] + times[k..])
  {
  }

  lemma InsertedContents(times: seq<nat>, k: nat, t: nat)
    requires k <= |times|
    ensures multiset(times[..k] + [t] + times[k..]) == multiset(times) + multiset{t}
  {
    assert times == times[..k] + times[k..];
  }

  function Insert(times: seq<nat>, t: nat): (r: seq<nat>)
    requires Sorted(times)
    ensures Sorted(r) && multiset(r) == multiset(times) + multiset{t}
  {
    var k := BisectRight(times, t);
    InsertedIsSorted(times, k, t);
    InsertedContents(times, k, t);
    times[..k] + [t] + times[k..]
  }

  function Sort(times: seq<nat>): (r: seq<nat>)
    ensures Sorted(r) && multiset(r) == multiset(times)
  {
    if times == [] then []
    else
      assert times == [times[0]] + times[1..];
      Insert(Sort(times[1..]), times[0])
  }

  lemma EarliestPermuted(ar: Arith, capacity: nat, a: seq<nat>, b: seq<nat>, from: nat)
    requires Sound(ar) && 0 < capacity && multiset(a) == multiset(b)
    ensures Earliest(ar, capacity, a, from) == Earliest(ar, capacity, b, from)
  {
    forall w ensures Count(ar, a, w) == Count(ar, b, w) {
      CountPermuted(ar, a, b, w);
    }
    EarliestDependsOnLegality(ar, capacity, a, b, from);
  }

  // ---------------------------------------------------------------- available slots

  lemma CountAppended(ar: Arith, times: seq<nat>, t: nat, w: int)
    ensures Count(ar, times + [t], w) == Count(ar, times, w) + if InWindow(ar, t, w) then 1 else 0
  {
    CountConcat(ar, times, [t], w);
  }

  /** How often `t` can be added before the test by window ends refuses. */
  ghost function Available(ar: Arith, capacity: nat, times: seq<nat>, t: nat): nat
    requires ar.sub(t) < t
    decreases if Count(ar, times, t) < capacity then capacity - Count(ar, times, t) else 0
  {
    if LegalByEnds(ar, capacity, times, t) then
      CountAppended(ar, times, t, t);
      1 + Available(ar, capacity, times + [t], t)
    else 0
  }

  /** A slot is available now, and no wait is needed: the two ways a snapshot says it. */
  ghost predicate SaysTheSame(ar: Arith, capacity: nat, times: seq<nat>, t: nat)
    requires Sound(ar) && 0 < capacity && ar.sub(t) < t
  {
    Available(ar, capacity, times, t) > 0 <==> Earliest(ar, capacity, times, t) == t
  }

  lemma SaysTheSameIffAgrees(ar: Arith, capacity: nat, times: seq<nat>, t: nat)
    requires Sound(ar) && 0 < capacity && ar.sub(t) < t
    ensures SaysTheSame(ar, capacity, times, t) <==> AgreeAt(ar, capacity, times, t)
  {
    hide LegalByEnds;
    assert Earliest(ar, capacity, times, t) == t <==> LegalSlot(ar, capacity, times, t);
  }

  /** A snapshot of every legal schedule says the same in both ways exactly when the rounded
      `t + per` serves as the exit point of `t`. */
  lemma SnapshotIsCoherentIffSumServes(ar: Arith, capacity: nat, t: nat)
    requires Sound(ar) && 0 < capacity && ar.sub(t) < t
    ensures (forall times: seq<nat> :: Sorted(times) && WithinCapacity(ar, capacity, times) ==>
                                         SaysTheSame(ar, capacity, times, t))
       <==> SumServes(ar, t)
  {
    hide WithinCapacity, SaysTheSame, AgreeAt, Sorted, SumServes;
    TestsAgreeIffSumServes(ar, capacity, t);
    forall times: seq<nat> ensures SaysTheSame(ar, capacity, times, t) <==> AgreeAt(ar, capacity, times, t) {
      SaysTheSameIffAgrees(ar, capacity, times, t);
    }
  }

  lemma LegalByEndsPermuted(ar: Arith, capacity: nat, a: seq<nat>, b: seq<nat>, t: nat)
    requires multiset(a) == multiset(b)
    ensures LegalByEnds(ar, capacity, a, t) ==> LegalByEnds(ar, capacity, b, t)
  {
    CountPermuted(ar, a, b, t);
    forall i | LegalByEnds(ar, capacity, a, t) && 0 <= i < |b| && t < b[i] < ar.add(t)
      ensures Count(ar, b, b[i]) < capacity
    {
      assert b[i] in multiset(a);
      CountPermuted(ar, a, b, b[i]);
    }
  }

  lemma {:induction false} AvailablePermuted(ar: Arith, capacity: nat, a: seq<nat>, b: seq<nat>, t: nat)
    requires multiset(a) == multiset(b) && ar.sub(t) < t
    ensures Available(ar, capacity, a, t) == Available(ar, capacity, b, t)
    decreases Available(ar, capacity, a, t)
  {
    LegalByEndsPermuted(ar, capacity, a, b, t);
    LegalByEndsPermuted(ar, capacity, b, a, t);
    if LegalByEnds(ar, capacity, a, t) {
      AvailablePermuted(ar, capacity, a + [t], b + [t], t);
    }
  }

  method AvailableAt(ar: Arith, capacity: nat, candidate: nat, times: seq<nat>) returns (available: nat)
    requires Sound(ar) && Sorted(times) && ar.sub(candidate) < candidate
    ensures available == Available(ar, capacity, times, candidate)
  {
    available := 0;
    var planned := times;
    var legal := IsLegalSlot(ar, capacity, candidate, planned);
    while legal
      invariant Sorted(planned)
      invariant legal <==> LegalByEnds(ar, capacity, planned, candidate)
      invariant available + Available(ar, capacity, planned, candidate) == Available(ar, capacity, times, candidate)
      decreases Available(ar, capacity, planned, candidate)
    {
      AvailablePermuted(ar, capacity, planned + [candidate], Insert(planned, candidate), candidate);
      available := available + 1;
      planned := Insert(planned, candidate);
      legal := IsLegalSlot(ar, capacity, candidate, planned);
    }
  }

  /** On a legal schedule, `Available` is the largest number of reservations that can all be made at `t`. */
  lemma {:induction false} AvailableIsLargest(ar: Arith, capacity: nat, times: seq<nat>, t: nat, n: nat)
    requires Sound(ar) && 0 < capacity && ar.sub(t) < t && SumServes(ar, t)
    requires WithinCapacity(ar, capacity, times)
    ensures WithinCapacity(ar, capacity, times + Copies(t, n)) <==> n <= Available(ar, capacity, times, t)
    decreases n
  {
    TestsAgree(ar, capacity, times, t);
    LegalIffCapacityKept(ar, capacity, times, t);
    if n == 0 {
      assert times + Copies(t, 0) == times;
    } else {
      assert times + Copies(t, n) == (times + [t]) + Copies(t, n - 1);
      if LegalSlot(ar, capacity, times, t) {
        AvailableIsLargest(ar, capacity, times + [t], t, n - 1);
      } else {
        forall w ensures Count(ar, times + [t], w) <= Count(ar, times + Copies(t, n), w) {
          CountConcat(ar, times + [t], Copies(t, n - 1), w);
        }
        var w :| Count(ar, times + [t], w) > capacity;
        assert Count(ar, times + Copies(t, n), w) > capacity;
      }
    }
  }

  /** The count says how many reservations can be made at `t`, no more and no less. */
  ghost predicate CountsAll(ar: Arith, capacity: nat, times: seq<nat>, t: nat)
    requires ar.sub(t) < t
  {
    forall n: nat :: WithinCapacity(ar, capacity, times + Copies(t, n)) <==> n <= Available(ar, capacity, times, t)
  }

  lemma CountsAllNeedsAgreement(ar: Arith, capacity: nat, times: seq<nat>, t: nat)
    requires Sound(ar) && 0 < capacity && ar.sub(t) < t && WithinCapacity(ar, capacity, times)
    ensures CountsAll(ar, capacity, times, t) ==> AgreeAt(ar, capacity, times, t)
  {
    hide LegalByEnds, LegalSlot, WithinCapacity;
    LegalIffCapacityKept(ar, capacity, times, t);
    assert Copies(t, 1) == [t];
    assert LegalByEnds(ar, capacity, times, t) <==> 1 <= Available(ar, capacity, times, t);
  }

  /** It counts right on every legal schedule exactly when the rounded sum serves as the exit point. */
  lemma AvailableIsLargestIffSumServes(ar: Arith, capacity: nat, t: nat)
    requires Sound(ar) && 0 < capacity && ar.sub(t) < t
    ensures (forall times: seq<nat> :: Sorted(times) && WithinCapacity(ar, capacity, times) ==>
                                         CountsAll(ar, capacity, times, t))
       <==> SumServes(ar, t)
  {
    hide SumServes, Sorted, WithinCapacity, AgreeAt, Available;
    TestsAgreeIffSumServes(ar, capacity, t);
    forall times: seq<nat> | WithinCapacity(ar, capacity, times)
      ensures CountsAll(ar, capacity, times, t) ==> AgreeAt(ar, capacity, times, t)
    {
      CountsAllNeedsAgreement(ar, capacity, times, t);
    }
    forall times: seq<nat>, n: nat | SumServes(ar, t) && WithinCapacity(ar, capacity, times)
      ensures WithinCapacity(ar, capacity, times + Copies(t, n)) <==> n <= Available(ar, capacity, times, t)
    {
      AvailableIsLargest(ar, capacity, times, t, n);
    }
  }

  /** Whatever the schedule, the test passes one more reservation at `t` until as many as the count says have
      been added, and refuses the next. */
  lemma {:induction false} AvailableIsWhereTheTestRefuses(ar: Arith, capacity: nat, times: seq<nat>, t: nat, n: nat)
    requires ar.sub(t) < t && n <= Available(ar, capacity, times, t)
    ensures LegalByEnds(ar, capacity, times + Copies(t, n), t) <==> n < Available(ar, capacity, times, t)
    decreases n
  {
    if n == 0 {
      assert times + Copies(t, 0) == times;
    } else {
      assert times + Copies(t, n) == (times + [t]) + Copies(t, n - 1);
      AvailableIsWhereTheTestRefuses(ar, capacity, times + [t], t, n - 1);
    }
  }

  /** Adding copies of `t` one by one is refused at some point. */
  ghost predicate CountingEnds(ar: Arith, capacity: nat, times: seq<nat>, t: nat) {
    exists n :: !LegalByEnds(ar, capacity, times + Copies(t, n), t)
  }

  /** The counting loop ends for every schedule exactly when subtracting the period from `t` moves it. */
  lemma AvailableTerminatesIff(ar: Arith, capacity: nat, t: nat)
    requires Sound(ar) && 0 < capacity
    ensures (forall times: seq<nat> :: CountingEnds(ar, capacity, times, t)) <==> ar.sub(t) < t
  {
    if ar.sub(t) < t {
      forall times: seq<nat> ensures CountingEnds(ar, capacity, times, t) {
        CountConcat(ar, times, Copies(t, capacity), t);
        CountCopies(ar, t, capacity, t);
        assert !LegalByEnds(ar, capacity, times + Copies(t, capacity), t);
      }
    } else {
      forall n ensures LegalByEnds(ar, capacity, [] + Copies(t, n), t) {
        assert [] + Copies(t, n) == Copies(t, n);
        CountCopies(ar, t, n, t);
      }
      assert !CountingEnds(ar, capacity, [], t);
    }
  }
}
