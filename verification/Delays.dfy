/** Delays: trees that add up, and the explicit-stack evaluator that resolves them. Seconds are real
numbers. */
module Delays {

  const MAX_SLEEP_SECONDS: real := 86_400.0

  function Min(x: real, y: real): real {
    if y < x then y else x
  }

  datatype Outcome = Delay(seconds: real) | Failed(leaf: nat)

  /** A leaf is any strategy that is not additive; it is known by a number, and what it returns is
      given by an oracle that maps the number to a raw value or to a failure. */
  datatype Tree = Leaf(id: nat) | Additive(strategies: seq<Tree>)

  datatype Raw = Value(seconds: real) | Error

  type Oracle = nat -> Raw

  /** The validated delay of a leaf: a raised error or a value out of range ends the resolution. */
  function ResolveLeaf(raw: Oracle, id: nat): (o: Outcome)
    ensures o.Delay? ==> 0.0 <= o.seconds <= MAX_SLEEP_SECONDS
  {
    match raw(id)
    case Error => Failed(id)
    case Value(x) => if x < 0.0 || x > MAX_SLEEP_SECONDS then Failed(id) else Delay(x)
  }

  // ---------------------------------------------------------------- the recursive meaning

  /** The leaves asked, in order, and the outcome. */
  datatype Resolution = Resolution(asked: seq<nat>, outcome: Outcome)

  function Resolve(raw: Oracle, t: Tree): (r: Resolution)
    ensures r.outcome.Delay? ==> 0.0 <= r.outcome.seconds <= MAX_SLEEP_SECONDS
    decreases t, 1
  {
    match t
    case Leaf(id) => Resolution([id], ResolveLeaf(raw, id))
    case Additive(ts) => Saturated(ResolveSum(raw, ts))
  }

  /** The sum over a list of strategies, up to the first failure. */
  function ResolveSum(raw: Oracle, ts: seq<Tree>): (r: Resolution)
    ensures r.outcome.Delay? ==> 0.0 <= r.outcome.seconds
    decreases ts, 0
  {
    if ts == [] then Resolution([], Delay(0.0))
    else Then(Resolve(raw, ts[0]), ResolveSum(raw, ts[1..]))
  }

  /** First one resolution, then, unless it failed, another; their delays add up. */
  function Then(first: Resolution, rest: Resolution): Resolution {
    if first.outcome.Failed? then first
    else Resolution(first.asked + rest.asked,
                    if rest.outcome.Failed? then rest.outcome else Delay(first.outcome.seconds + rest.outcome.seconds))
  }

  /** A sum does not exceed the ceiling. */
  function Saturated(r: Resolution): Resolution {
    if r.outcome.Failed? then r else Resolution(r.asked, Delay(Min(r.outcome.seconds, MAX_SLEEP_SECONDS)))
  }

  // ---------------------------------------------------------------- one sum over all leaves

  function Leaves(t: Tree): seq<nat>
    decreases t, 1
  {
    match t
    case Leaf(id) => [id]
    case Additive(ts) => LeavesOf(ts)
  }

  function LeavesOf(ts: seq<Tree>): seq<nat>
    decreases ts, 0
  {
    if ts == [] then [] else Leaves(ts[0]) + LeavesOf(ts[1..])
  }

  /** Asking a list of leaves one by one, with no tree and no ceiling. */
  function AskAll(raw: Oracle, ids: seq<nat>): (r: Resolution)
    ensures r.outcome.Delay? ==> 0.0 <= r.outcome.seconds
  {
    if ids == [] then Resolution([], Delay(0.0))
    else Then(Resolution([ids[0]], ResolveLeaf(raw, ids[0])), AskAll(raw, ids[1..]))
  }

  lemma {:induction false} AskConcat(raw: Oracle, a: seq<nat>, b: seq<nat>)
    ensures AskAll(raw, a + b) == Then(AskAll(raw, a), AskAll(raw, b))
  {
    if a == [] {
      assert a + b == b;
    } else {
      assert (a + b)[1..] == a[1..] + b;
      AskConcat(raw, a[1..], b);
    }
  }

  /** Saturating level by level is saturating once: the tree asks its leaves from left to right,
      each exactly once and up to the first invalid one, and otherwise resolves to the sum of all
      leaves, cut at the ceiling. */
  lemma {:induction false} TreeIsSumOfLeaves(raw: Oracle, t: Tree)
    ensures Resolve(raw, t) == Saturated(AskAll(raw, Leaves(t)))
    decreases t, 1
  {
    match t
    case Leaf(id) =>
      assert AskAll(raw, [id]) == Then(Resolution([id], ResolveLeaf(raw, id)), AskAll(raw, []));
    case Additive(ts) =>
      ForestIsSumOfLeaves(raw, ts);
  }

  lemma {:induction false} ForestIsSumOfLeaves(raw: Oracle, ts: seq<Tree>)
    ensures Saturated(ResolveSum(raw, ts)) == Saturated(AskAll(raw, LeavesOf(ts)))
    decreases ts, 0
  {
    if ts != [] {
      TreeIsSumOfLeaves(raw, ts[0]);
      ForestIsSumOfLeaves(raw, ts[1..]);
      AskConcat(raw, Leaves(ts[0]), LeavesOf(ts[1..]));
    }
  }

  /** A delay that may be slept. */
  predicate IsDelay(raw: Raw) {
    raw.Value? && 0.0 <= raw.seconds <= 24.0 * 60.0 * 60.0
  }

  /** The leaves before number `k` all give delays. */
  predicate DelaysUpTo(raw: Oracle, ids: seq<nat>, k: nat)
    requires k <= |ids|
  {
    forall i :: 0 <= i < k ==> IsDelay(raw(ids[i]))
  }

  function Total(raw: Oracle, ids: seq<nat>): real {
    if ids == [] then 0.0
    else (match raw(ids[0]) case Value(x) => x case Error => 0.0) + Total(raw, ids[1..])
  }

  lemma {:induction false} AskingMeans(raw: Oracle, ids: seq<nat>, k: nat)
    requires k <= |ids| && DelaysUpTo(raw, ids, k)
    ensures k == |ids| ==> AskAll(raw, ids) == Resolution(ids, Delay(Total(raw, ids)))
    ensures k < |ids| && !IsDelay(raw(ids[k])) ==> AskAll(raw, ids) == Resolution(ids[..k + 1], Failed(ids[k]))
  {
    if k > 0 {
      assert forall i :: 0 <= i < k - 1 ==> ids[1..][i] == ids[i + 1];
      AskingMeans(raw, ids[1..], k - 1);
      assert ids == [ids[0]] + ids[1..] && (k < |ids| ==> ids[..k + 1] == [ids[0]] + ids[1..][..k]);
    }
  }

  /** What a tree comes to: its leaves are asked from left to right up to the first that gives no delay, whose
      failure is the outcome; when all give one, they add up, to no more than a day. */
  lemma TreeMeans(raw: Oracle, t: Tree, k: nat)
    requires k <= |Leaves(t)| && DelaysUpTo(raw, Leaves(t), k)
    ensures var ids := Leaves(t);
            && (k == |ids| ==> Resolve(raw, t) == Resolution(ids, Delay(Min(Total(raw, ids), 24.0 * 60.0 * 60.0))))
            && (k < |ids| && !IsDelay(raw(ids[k])) ==> Resolve(raw, t) == Resolution(ids[..k + 1], Failed(ids[k])))
  {
    hide AskAll, Leaves;
    TreeIsSumOfLeaves(raw, t);
    AskingMeans(raw, Leaves(t), k);
  }

  // ---------------------------------------------------------------- the explicit stack

  /** One open additive node: its children, the next one to look at, and the values so far. */
  datatype Frame = Frame(strategies: seq<Tree>, index: nat, values: seq<real>)

  predicate ValidFrame(f: Frame) {
    f.index <= |f.strategies|
  }

  ghost predicate ValidFrames(frames: seq<Frame>) {
    forall f :: f in frames ==> ValidFrame(f)
  }

  function Sum(values: seq<real>): real {
    if values == [] then 0.0 else Sum(values[..|values| - 1]) + values[|values| - 1]
  }

  datatype MaybeDelay = NoDelay | Resolved(seconds: real)

  /** What is still to come: finish the top frame, hand its value to the frame below, and so on. */
  ghost function Continue(raw: Oracle, frames: seq<Frame>, resolved: MaybeDelay): Resolution
    requires ValidFrames(frames)
    requires frames == [] ==> resolved.Resolved?
  {
    if frames == [] then Resolution([], Delay(resolved.seconds))
    else
      var n := |frames| - 1;
      var f := frames[n];
      assert f in frames;
      var sofar := Sum(f.values) + (if resolved.Resolved? then resolved.seconds else 0.0);
      var rest := ResolveSum(raw, f.strategies[f.index..]);
      if rest.outcome.Failed? then rest
      else
        var below := Continue(raw, frames[..n], Resolved(Min(sofar + rest.outcome.seconds, MAX_SLEEP_SECONDS)));
        Resolution(rest.asked + below.asked, below.outcome)
  }

  /** Ask first, then go on. */
  ghost function After(asked: seq<nat>, r: Resolution): Resolution {
    Resolution(asked + r.asked, r.outcome)
  }

  /** What is still to come when `f` is the top frame and `sofar` its sum so far. */
  ghost function ContinueFrame(raw: Oracle, frames: seq<Frame>, f: Frame, sofar: real): Resolution
    requires ValidFrames(frames) && ValidFrame(f)
  {
    var rest := ResolveSum(raw, f.strategies[f.index..]);
    if rest.outcome.Failed? then rest
    else After(rest.asked, Continue(raw, frames, Resolved(Min(sofar + rest.outcome.seconds, MAX_SLEEP_SECONDS))))
  }

  lemma {:induction false} ContinueTop(raw: Oracle, frames: seq<Frame>, f: Frame, resolved: MaybeDelay)
    requires ValidFrames(frames) && ValidFrame(f)
    ensures ValidFrames(frames + [f])
    ensures Continue(raw, frames + [f], resolved)
         == ContinueFrame(raw, frames, f, Sum(f.values) + (if resolved.Resolved? then resolved.seconds else 0.0))
  {
    assert (frames + [f])[..|frames|] == frames;
  }

  lemma SumAppend(values: seq<real>, x: real)
    ensures Sum(values + [x]) == Sum(values) + x
  {
    assert (values + [x])[..|values|] == values;
  }

  /** Appending the value of a finished child. */
  lemma ValueContinues(raw: Oracle, frames: seq<Frame>, f: Frame, x: real)
    requires ValidFrames(frames) && ValidFrame(f)
    ensures ValidFrames(frames + [f]) && ValidFrames(frames + [f.(values := f.values + [x])])
    ensures Continue(raw, frames + [f], Resolved(x)) == Continue(raw, frames + [f.(values := f.values + [x])], NoDelay)
  {
    ContinueTop(raw, frames, f, Resolved(x));
    ContinueTop(raw, frames, f.(values := f.values + [x]), NoDelay);
    SumAppend(f.values, x);
  }

  /** Closing a frame with no children left. */
  lemma PopContinues(raw: Oracle, frames: seq<Frame>, f: Frame)
    requires ValidFrames(frames) && f.index == |f.strategies|
    ensures ValidFrames(frames + [f])
    ensures Continue(raw, frames + [f], NoDelay)
        == Continue(raw, frames, Resolved(Min(Sum(f.values), MAX_SLEEP_SECONDS)))
  {
    ContinueTop(raw, frames, f, NoDelay);
    assert f.strategies[f.index..] == [];
  }

  lemma SumStep(raw: Oracle, ts: seq<Tree>, i: nat)
    requires i < |ts|
    ensures ResolveSum(raw, ts[i..]) == Then(Resolve(raw, ts[i]), ResolveSum(raw, ts[i + 1..]))
  {
    assert ts[i..][1..] == ts[i + 1..] && ts[i..][0] == ts[i];
  }

  /** Asking a leaf. */
  lemma LeafContinues(raw: Oracle, frames: seq<Frame>, f: Frame)
    requires ValidFrames(frames) && f.index < |f.strategies| && f.strategies[f.index].Leaf?
    ensures ValidFrames(frames + [f])
    ensures var id := f.strategies[f.index].id;
            var o := ResolveLeaf(raw, id);
            if o.Failed? then Continue(raw, frames + [f], NoDelay) == Resolution([id], o)
            else
              var next := f.(index := f.index + 1, values := f.values + [o.seconds]);
              ValidFrames(frames + [next]) && Continue(raw, frames + [f], NoDelay)
                  == After([id], Continue(raw, frames + [next], NoDelay))
  {
    hide Continue, ResolveSum, Sum;
    ContinueTop(raw, frames, f, NoDelay);
    SumStep(raw, f.strategies, f.index);
    var o := ResolveLeaf(raw, f.strategies[f.index].id);
    if o.Delay? {
      var next := f.(index := f.index + 1, values := f.values + [o.seconds]);
      ContinueTop(raw, frames, next, NoDelay);
      SumAppend(f.values, o.seconds);
    }
  }

  /** Opening a child that is itself additive. */
  lemma PushContinues(raw: Oracle, frames: seq<Frame>, f: Frame)
    requires ValidFrames(frames) && f.index < |f.strategies| && f.strategies[f.index].Additive?
    ensures var next, child := f.(index := f.index + 1), Frame(f.strategies[f.index].strategies, 0, []);
            && ValidFrames(frames + [f]) && ValidFrames(frames + [next] + [child])
            && Continue(raw, frames + [f], NoDelay) == Continue(raw, frames + [next] + [child], NoDelay)
  {
    hide Continue, ResolveSum;
    var next, child := f.(index := f.index + 1), Frame(f.strategies[f.index].strategies, 0, []);
    SumStep(raw, f.strategies, f.index);
    assert child.strategies[0..] == child.strategies;
    ContinueTop(raw, frames, f, NoDelay);
    ContinueTop(raw, frames + [next], child, NoDelay);
    var inner := ResolveSum(raw, child.strategies);
    if inner.outcome.Delay? {
      ContinueTop(raw, frames, next, Resolved(Min(inner.outcome.seconds, MAX_SLEEP_SECONDS)));
    }
  }

  ghost function Size(t: Tree): nat
    decreases t, 1
  {
    match t
    case Leaf(_) => 1
    case Additive(ts) => 2 + SizeOf(ts)
  }

  ghost function SizeOf(ts: seq<Tree>): nat
    decreases ts, 0
  {
    if ts == [] then 0 else Size(ts[0]) + SizeOf(ts[1..])
  }

  /** The work left on the stack. */
  ghost function Work(frames: seq<Frame>): nat
    requires ValidFrames(frames)
  {
    if frames == [] then 0
    else
      var f := frames[|frames| - 1];
      assert f in frames;
      1 + SizeOf(f.strategies[f.index..]) + Work(frames[..|frames| - 1])
  }

  lemma WorkTop(frames: seq<Frame>, f: Frame)
    requires ValidFrames(frames) && ValidFrame(f)
    ensures ValidFrames(frames + [f])
    ensures Work(frames + [f]) == 1 + SizeOf(f.strategies[f.index..]) + Work(frames)
    ensures f.index < |f.strategies| ==>
              SizeOf(f.strategies[f.index..]) == Size(f.strategies[f.index]) + SizeOf(f.strategies[f.index + 1..])
  {
    assert (frames + [f])[..|frames|] == frames;
    if f.index < |f.strategies| {
      assert f.strategies[f.index..][1..] == f.strategies[f.index + 1..];
    }
  }

  /** The evaluator with an explicit stack, so that deep trees need no recursion. */
  method ResolveAdditiveTree(raw: Oracle, root: Tree) returns (asked: seq<nat>, outcome: Outcome)
    requires root.Additive?
    ensures Resolution(asked, outcome) == Resolve(raw, root)
  {
    hide Continue, ResolveLeaf, Resolve, ResolveSum, Work, Size, SizeOf, ValidFrames, Sum;
    var frames := [Frame(root.strategies, 0, [])];
    var resolvedChild := NoDelay;
    asked := [];
    StartContinues(raw, root);
    while frames != []
      invariant ValidFrames(frames)
      invariant frames == [] ==> resolvedChild.Resolved?
      invariant After(asked, Continue(raw, frames, resolvedChild)) == Resolve(raw, root)
      decreases Work(frames)
    {
      ghost var before := frames;
      var frame := frames[|frames| - 1];
      var rest := frames[..|frames| - 1];
      assert frames == rest + [frame];
      SplitFrames(rest, frame);
      WorkTop(rest, frame);

      if resolvedChild.Resolved? {
        ValueContinues(raw, rest, frame, resolvedChild.seconds);
        frame := frame.(values := frame.values + [resolvedChild.seconds]);
        resolvedChild := NoDelay;
      }

      if frame.index >= |frame.strategies| {
        PopContinues(raw, rest, frame);
        resolvedChild := Resolved(Min(Sum(frame.values), MAX_SLEEP_SECONDS));
        frames := rest;
        continue;
      }

      var strategy := frame.strategies[frame.index];
      if strategy.Additive? {
        PushContinues(raw, rest, frame);
        PushWorks(rest, frame);
        frames := rest + [frame.(index := frame.index + 1)] + [Frame(strategy.strategies, 0, [])];
      } else {
        LeafContinues(raw, rest, frame);
        outcome := ResolveLeaf(raw, strategy.id);
        asked := asked + [strategy.id];
        if outcome.Failed? {
          return;
        }
        LeafWorks(rest, frame, outcome.seconds);
        frames := rest + [frame.(index := frame.index + 1, values := frame.values + [outcome.seconds])];
      }
    }
    EndContinues(raw, resolvedChild.seconds);
    outcome := Delay(resolvedChild.seconds);
  }

  lemma SplitFrames(frames: seq<Frame>, f: Frame)
    requires ValidFrames(frames + [f])
    ensures ValidFrames(frames) && ValidFrame(f)
  {
    assert f in frames + [f];
    assert forall g :: g in frames ==> g in frames + [f];
  }

  lemma StartContinues(raw: Oracle, root: Tree)
    requires root.Additive?
    ensures ValidFrames([Frame(root.strategies, 0, [])])
    ensures After([], Continue(raw, [Frame(root.strategies, 0, [])], NoDelay)) == Resolve(raw, root)
  {
    var f := Frame(root.strategies, 0, []);
    assert [] + [f] == [f];
    ContinueTop(raw, [], f, NoDelay);
    assert f.strategies[0..] == root.strategies;
  }

  lemma EndContinues(raw: Oracle, x: real)
    ensures ValidFrames([]) && Continue(raw, [], Resolved(x)) == Resolution([], Delay(x))
  {
  }

  lemma PushWorks(frames: seq<Frame>, f: Frame)
    requires ValidFrames(frames) && f.index < |f.strategies| && f.strategies[f.index].Additive?
    ensures var next, child := f.(index := f.index + 1), Frame(f.strategies[f.index].strategies, 0, []);
            ValidFrames(frames + [next] + [child])
                && Work(frames + [next] + [child]) < 1 + SizeOf(f.strategies[f.index..]) + Work(frames)
  {
    var next, child := f.(index := f.index + 1), Frame(f.strategies[f.index].strategies, 0, []);
    WorkTop(frames, f);
    WorkTop(frames, next);
    WorkTop(frames + [next], child);
    assert child.strategies[0..] == child.strategies;
  }

  lemma LeafWorks(frames: seq<Frame>, f: Frame, x: real)
    requires ValidFrames(frames) && f.index < |f.strategies| && f.strategies[f.index].Leaf?
    ensures var next := f.(index := f.index + 1, values := f.values + [x]);
            ValidFrames(frames + [next]) && Work(frames + [next]) < 1 + SizeOf(f.strategies[f.index..]) + Work(frames)
  {
    WorkTop(frames, f);
    WorkTop(frames, f.(index := f.index + 1, values := f.values + [x]));
  }
}
