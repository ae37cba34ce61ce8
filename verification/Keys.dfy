/** Keys do not disturb each other: the users of one key hear the same from a shared budget as from
one of their own. */
module Keys {
  import opened RollingWindow
  import opened BudgetState
  import opened BudgetRuns

  // ---------------------------------------------------------------- calls

  /** What callers ask of a budget. A release names its reservation by its number among those granted
      for the key, so that the name means the same in any run; a number not granted yet names none. */
  datatype Call =
    | Ask(key: string, current: nat, notBefore: nat)
    | GiveBack(key: string, n: nat, current: nat)
    | Look(key: string, current: nat)
    | Clean(current: nat)

  predicate IsOn(c: Call, key: string) {
    match c
    case Ask(k, _, _) => k == key
    case GiveBack(k, _, _) => k == key
    case Look(k, _) => k == key
    case Clean(_) => false
  }

  /** The calls on one key. */
  function OnKey(calls: seq<Call>, key: string): seq<Call> {
    if calls == [] then []
    else
      var n := |calls| - 1;
      OnKey(calls[..n], key) + if IsOn(calls[n], key) then [calls[n]] else []
  }

  /** Everything granted for a key, in order, whether released or not. */
  function Grants(ops: seq<Op>, answers: seq<Answer>, key: string): (gs: seq<Reservation>)
    requires |ops| == |answers|
  {
    if ops == [] then []
    else
      var n := |ops| - 1;
      Grants(ops[..n], answers[..n], key)
      + if ops[n].Reserve? && ops[n].key == key && answers[n].Granted? then [answers[n].reservation] else []
  }

  function Resolve(c: Call, gs: seq<Reservation>): (op: Op)
    ensures op.current == c.current
  {
    match c
    case Ask(key, current, notBefore) => Reserve(key, current, notBefore)
    case GiveBack(_, n, current) => if n < |gs| then Release(gs[n], current) else Cleanup(current)
    case Look(key, current) => Snapshot(key, current)
    case Clean(current) => Cleanup(current)
  }

  function KeyOf(c: Call): string {
    if c.Clean? then "" else c.key
  }

  /** Every snapshot among the calls ends. */
  ghost predicate AllEnd(ar: Arith, calls: seq<Call>) {
    forall i :: 0 <= i < |calls| && calls[i].Look? ==> ar.sub(calls[i].current) < calls[i].current
  }

  /** The operations that the calls come to on a new budget. */
  ghost function Play(cfg: Config, calls: seq<Call>): (ops: seq<Op>)
    requires ValidConfig(cfg) && AllEnd(cfg.ar, calls)
    ensures |ops| == |calls| && Steady(cfg.ar, ops)
    ensures forall i :: 0 <= i < |calls| ==> ops[i].current == calls[i].current
  {
    if calls == [] then []
    else
      var n := |calls| - 1;
      EndsOneByOne(cfg.ar, calls);
      var ops := Play(cfg, calls[..n]);
      var op := Resolve(calls[n], Grants(ops, Run(cfg, ops).1, KeyOf(calls[n])));
      SteadyOneByOne(cfg.ar, ops, op);
      ops + [op]
  }

  lemma EndsOneByOne(ar: Arith, calls: seq<Call>)
    requires AllEnd(ar, calls) && calls != []
    ensures AllEnd(ar, calls[..|calls| - 1])
    ensures var c := calls[|calls| - 1]; c.Look? ==> ar.sub(c.current) < c.current
  {
  }

  lemma SteadyOneByOne(ar: Arith, ops: seq<Op>, op: Op)
    requires Steady(ar, ops) && Ends(ar, op)
    ensures Steady(ar, ops + [op])
  {
  }

  /** What the callers of a key hear: slots, views and refusals, in order. */
  function Heard(calls: seq<Call>, answers: seq<Answer>, key: string): seq<Answer>
    requires |calls| == |answers|
  {
    if calls == [] then []
    else
      var n := |calls| - 1;
      Heard(calls[..n], answers[..n], key) + if IsOn(calls[n], key) then [Visible(answers[n])] else []
  }

  /** The part of an answer that a caller acts on: the slot, or the view. Tokens are internal. */
  function Visible(a: Answer): Answer {
    match a
    case Granted(r) => Granted(r.(token := 0))
    case _ => a
  }

  function CallReadings(calls: seq<Call>): (cs: seq<nat>)
    ensures |cs| == |calls| && forall i :: 0 <= i < |calls| ==> cs[i] == calls[i].current
  {
    seq(|calls|, i requires 0 <= i < |calls| => calls[i].current)
  }

  // ---------------------------------------------------------------- readings of the calls on a key

  /** Where the calls on a key stand among all. */
  function Places(calls: seq<Call>, key: string): (at: seq<nat>)
    ensures |at| == |OnKey(calls, key)|
    ensures forall i :: 0 <= i < |at| ==> at[i] < |calls| && calls[at[i]] == OnKey(calls, key)[i]
    ensures forall i, j :: 0 <= i < j < |at| ==> at[i] < at[j]
  {
    if calls == [] then []
    else
      var n := |calls| - 1;
      Places(calls[..n], key) + if IsOn(calls[n], key) then [n] else []
  }

  lemma OnKeyHasNoPeak(ar: Arith, calls: seq<Call>, key: string)
    requires AllEnd(ar, calls) && NoPeak(ar, CallReadings(calls))
    ensures AllEnd(ar, OnKey(calls, key)) && NoPeak(ar, CallReadings(OnKey(calls, key)))
  {
    var at, all, some := Places(calls, key), CallReadings(calls), CallReadings(OnKey(calls, key));
    forall i, j, k | 0 <= i < j < k < |some| && some[i] <= ar.sub(some[j]) ensures ar.sub(some[j]) <= ar.sub(some[k]) {
      assert all[at[i]] == some[i] && all[at[j]] == some[j] && all[at[k]] == some[k];
    }
    forall i | 0 <= i < |some| && OnKey(calls, key)[i].Look?
        ensures ar.sub(OnKey(calls, key)[i].current) < OnKey(calls, key)[i].current {
      assert calls[at[i]] == OnKey(calls, key)[i];
    }
  }

  lemma PrefixHasNoPeak(ar: Arith, calls: seq<Call>)
    requires calls != [] && AllEnd(ar, calls) && NoPeak(ar, CallReadings(calls))
    ensures AllEnd(ar, calls[..|calls| - 1]) && NoPeak(ar, CallReadings(calls[..|calls| - 1]))
  {
    var n := |calls| - 1;
    assert CallReadings(calls) == CallReadings(calls[..n]) + [calls[n].current];
    NoPeakSettles(ar, CallReadings(calls[..n]), calls[n].current);
  }

  // ---------------------------------------------------------------- two runs in step

  /** The grants with these numbers. */
  function Pick(gs: seq<Reservation>, which: seq<nat>): (rs: seq<Reservation>)
    requires forall i :: 0 <= i < |which| ==> which[i] < |gs|
    ensures |rs| == |which| && forall i :: 0 <= i < |which| ==> rs[i] == gs[which[i]]
  {
    seq(|which|, i requires 0 <= i < |which| => gs[which[i]])
  }

  function Drop(which: seq<nat>, n: nat): seq<nat> {
    if which == [] then [] else if which[0] == n then which[1..] else [which[0]] + Drop(which[1..], n)
  }

  lemma {:induction false} DropIsPart(which: seq<nat>, n: nat, bound: nat)
    requires forall i :: 0 <= i < |which| ==> which[i] < bound
    ensures forall i :: 0 <= i < |Drop(which, n)| ==> Drop(which, n)[i] < bound
  {
    if which != [] && which[0] != n {
      DropIsPart(which[1..], n, bound);
    }
  }

  /** Tokens tell grants apart, so removing one by its token is dropping its number. */
  lemma {:induction false} RemovePicked(gs: seq<Reservation>, which: seq<nat>, n: nat, nextToken: nat)
    requires TokensRise(gs, nextToken) && n < |gs| && forall i :: 0 <= i < |which| ==> which[i] < |gs|
    ensures forall i :: 0 <= i < |Drop(which, n)| ==> Drop(which, n)[i] < |gs|
    ensures RemoveToken(Pick(gs, which), gs[n].token) == Pick(gs, Drop(which, n))
  {
    hide TokensRise, Pick, RemoveToken;
    DropIsPart(which, n, |gs|);
    if which == [] {
      PickNone(gs);
    } else {
      var first, rest := which[0], which[1..];
      DropIsPart(rest, n, |gs|);
      RemovePicked(gs, rest, n, nextToken);
      PickCons(gs, first, rest);
      assert which == [first] + rest;
      RemoveCons(gs[first], Pick(gs, rest), gs[n].token);
      TokensTellApart(gs, first, n, nextToken);
      if first != n {
        PickCons(gs, first, Drop(rest, n));
      }
    }
  }

  lemma PickNone(gs: seq<Reservation>)
    ensures Pick(gs, []) == [] && forall token :: RemoveToken([], token) == []
  {
  }

  lemma PickCons(gs: seq<Reservation>, first: nat, rest: seq<nat>)
    requires first < |gs| && forall i :: 0 <= i < |rest| ==> rest[i] < |gs|
    ensures forall i :: 0 <= i < |[first] + rest| ==> ([first] + rest)[i] < |gs|
    ensures Pick(gs, [first] + rest) == [gs[first]] + Pick(gs, rest)
  {
  }

  lemma TokensTellApart(gs: seq<Reservation>, i: nat, j: nat, nextToken: nat)
    requires TokensRise(gs, nextToken) && i < |gs| && j < |gs|
    ensures gs[i].token == gs[j].token <==> i == j
  {
  }

  /** Two archives know the key alike: the same slots were granted, and the same grants are left. */
  ghost predicate Alike(a: Archive, b: Archive, key: string, ga: seq<Reservation>, gb: seq<Reservation>,
            which: seq<nat>) {
    && |ga| == |gb| && Times(ga) == Times(gb)
    && TokensRise(ga, a.nextToken) && TokensRise(gb, b.nextToken)
    && (forall i :: 0 <= i < |ga| ==> ga[i].key == key && gb[i].key == key)
    && (forall i :: 0 <= i < |which| ==> which[i] < |ga|)
    && Lookup(a.table, key) == Pick(ga, which) && Lookup(b.table, key) == Pick(gb, which)
  }

  lemma AlikeTimes(a: Archive, b: Archive, key: string, ga: seq<Reservation>, gb: seq<Reservation>, which: seq<nat>)
    requires Alike(a, b, key, ga, gb, which)
    ensures Times(Lookup(a.table, key)) == Times(Lookup(b.table, key))
  {
    hide TokensRise;
    assert forall i :: 0 <= i < |ga| ==> Times(ga)[i] == Times(gb)[i];
  }

  lemma AlikeGranted(a: Archive, b: Archive, key: string, ga: seq<Reservation>, gb: seq<Reservation>, which: seq<nat>,
          t: nat)
    requires Alike(a, b, key, ga, gb, which)
    ensures var (ra, rb) := (Reservation(a.nextToken, key, t), Reservation(b.nextToken, key, t));
            Alike(Archive(a.table[key := Lookup(a.table, key) + [ra]], a.nextToken + 1),
                  Archive(b.table[key := Lookup(b.table, key) + [rb]], b.nextToken + 1), key, ga + [ra], gb + [rb],
                  which + [|ga|])
  {
    var (ra, rb) := (Reservation(a.nextToken, key, t), Reservation(b.nextToken, key, t));
    assert Times(ga + [ra]) == Times(ga) + [t] && Times(gb + [rb]) == Times(gb) + [t];
    AppendRises(ga, ra, a.nextToken);
    AppendRises(gb, rb, b.nextToken);
    assert Pick(ga + [ra], which + [|ga|]) == Pick(ga, which) + [ra];
    assert Pick(gb + [rb], which + [|ga|]) == Pick(gb, which) + [rb];
  }

  lemma AlikeReleased(a: Archive, b: Archive, key: string, ga: seq<Reservation>, gb: seq<Reservation>, which: seq<nat>,
          n: nat)
    requires Alike(a, b, key, ga, gb, which) && n < |ga|
    ensures Alike(a.(table := a.table[key := RemoveToken(Lookup(a.table, key), ga[n].token)]),
                  b.(table := b.table[key := RemoveToken(Lookup(b.table, key), gb[n].token)]), key, ga, gb,
                  Drop(which, n))
  {
    hide TokensRise, RemoveToken;
    RemovePicked(ga, which, n, a.nextToken);
    RemovePicked(gb, which, n, b.nextToken);
  }

  /** The same call on the key, in both runs. */
  lemma CallOnKey(cfg: Config, a: Archive, b: Archive, key: string, ga: seq<Reservation>, gb: seq<Reservation>,
          which: seq<nat>, c: Call) returns (which': seq<nat>)
    requires ValidConfig(cfg) && Alike(a, b, key, ga, gb, which) && IsOn(c, key)
    requires c.Look? ==> cfg.ar.sub(c.current) < c.current
    ensures var ((a', x), (b', y)) := (Consult(cfg, a, Resolve(c, ga)), Consult(cfg, b, Resolve(c, gb)));
            && Visible(x) == Visible(y) && (x.Granted? <==> y.Granted?)
            && if c.Ask? && x.Granted? then Alike(a', b', key, ga + [x.reservation], gb + [y.reservation], which')
               else Alike(a', b', key, ga, gb, which')
  {
    hide Alike, Earliest, ValidKey, View;
    AlikeTimes(a, b, key, ga, gb, which);
    assert |ga| == |gb| && forall i :: 0 <= i < |ga| ==> ga[i].key == key && gb[i].key == key by {
      AlikeSizes(a, b, key, ga, gb, which);
    }
    which' := which;
    match c
    case Ask(_, current, notBefore) =>
      if ValidKey(key) {
        var t := Earliest(cfg.ar, cfg.capacity, Times(Lookup(a.table, key)), Max(current, notBefore));
        AlikeGranted(a, b, key, ga, gb, which, t);
        which' := which + [|ga|];
      }
    case GiveBack(_, n, _) =>
      if n < |ga| {
        AlikeReleased(a, b, key, ga, gb, which, n);
        which' := Drop(which, n);
      }
    case Look(_, _) =>
  }

  lemma AlikeSizes(a: Archive, b: Archive, key: string, ga: seq<Reservation>, gb: seq<Reservation>, which: seq<nat>)
    requires Alike(a, b, key, ga, gb, which)
    ensures |ga| == |gb| && forall i :: 0 <= i < |ga| ==> ga[i].key == key && gb[i].key == key
  {
  }

  /** A call on another key, in one of the runs only. */
  lemma CallElsewhere(cfg: Config, a: Archive, b: Archive, key: string, ga: seq<Reservation>, gb: seq<Reservation>,
          which: seq<nat>, c: Call, others: seq<Reservation>)
    requires ValidConfig(cfg) && Alike(a, b, key, ga, gb, which) && !IsOn(c, key)
    requires c.Look? ==> cfg.ar.sub(c.current) < c.current
    requires forall i :: 0 <= i < |others| ==> others[i].key == KeyOf(c)
    ensures Alike(Consult(cfg, a, Resolve(c, others)).0, b, key, ga, gb, which)
  {
    hide Earliest, ValidKey, View, TokensRise;
    RisesLater(ga, a.nextToken, a.nextToken + 1);
  }

  lemma {:induction false} GrantsAreOfKey(ops: seq<Op>, answers: seq<Answer>, key: string)
    requires |ops| == |answers|
    requires forall i :: 0 <= i < |ops| && ops[i].Reserve? && answers[i].Granted? ==>
        answers[i].reservation.key == ops[i].key
    ensures forall i :: 0 <= i < |Grants(ops, answers, key)| ==> Grants(ops, answers, key)[i].key == key
  {
    if ops != [] {
      GrantsAreOfKey(ops[..|ops| - 1], answers[..|ops| - 1], key);
    }
  }

  lemma {:induction false} GrantedForTheKey(cfg: Config, ops: seq<Op>, i: nat)
    requires ValidConfig(cfg) && Steady(cfg.ar, ops) && i < |ops|
    ensures var a := Recall(cfg, ops).1[i]; ops[i].Reserve? && a.Granted? ==> a.reservation.key == ops[i].key
  {
    var n := |ops| - 1;
    if i < n {
      GrantedForTheKey(cfg, ops[..n], i);
    }
  }

  lemma GrantsHaveTheirKey(cfg: Config, ops: seq<Op>, key: string)
    requires ValidConfig(cfg) && Steady(cfg.ar, ops)
    ensures var gs := Grants(ops, Recall(cfg, ops).1, key); forall i :: 0 <= i < |gs| ==> gs[i].key == key
  {
    hide Recall, Grants;
    forall i: nat | i < |ops|
      ensures var a := Recall(cfg, ops).1[i]; ops[i].Reserve? && a.Granted? ==> a.reservation.key == ops[i].key
    {
      GrantedForTheKey(cfg, ops, i);
    }
    GrantsAreOfKey(ops, Recall(cfg, ops).1, key);
  }

  lemma GrantsExtended(ops: seq<Op>, answers: seq<Answer>, op: Op, answer: Answer, key: string)
    requires |ops| == |answers|
    ensures Grants(ops + [op], answers + [answer], key)
         == Grants(ops, answers, key) + if op.Reserve? && op.key == key && answer.Granted? then [answer.reservation]
             else []
  {
    assert (ops + [op])[..|ops|] == ops && (answers + [answer])[..|ops|] == answers;
  }

  /** The operation a call comes to after others, with the archive's answers. */
  ghost function NextOp(cfg: Config, before: seq<Call>, c: Call): (op: Op)
    requires ValidConfig(cfg) && AllEnd(cfg.ar, before)
    ensures op.current == c.current
  {
    var ops := Play(cfg, before);
    Resolve(c, Grants(ops, Recall(cfg, ops).1, KeyOf(c)))
  }

  lemma AllEndLast(ar: Arith, before: seq<Call>, c: Call)
    requires AllEnd(ar, before + [c])
    ensures AllEnd(ar, before) && (c.Look? ==> ar.sub(c.current) < c.current)
  {
    assert forall i :: 0 <= i < |before| ==> (before + [c])[i] == before[i];
    assert (before + [c])[|before|] == c;
  }

  lemma CallReadingsLast(before: seq<Call>, c: Call)
    ensures CallReadings(before + [c]) == CallReadings(before) + [c.current]
  {
  }

  lemma PlayIsForgetful(cfg: Config, calls: seq<Call>)
    requires ValidConfig(cfg) && AllEnd(cfg.ar, calls) && NoPeak(cfg.ar, CallReadings(calls))
    ensures Run(cfg, Play(cfg, calls)).1 == Recall(cfg, Play(cfg, calls)).1
  {
    hide Run, Recall, NoPeak, AllEnd;
    assert Readings(Play(cfg, calls)) == CallReadings(calls);
    ForgettingIsInvisible(cfg, Play(cfg, calls));
  }

  lemma PlayExtended(cfg: Config, before: seq<Call>, c: Call)
    requires ValidConfig(cfg) && AllEnd(cfg.ar, before + [c]) && NoPeak(cfg.ar, CallReadings(before + [c]))
    ensures AllEnd(cfg.ar, before) && Ends(cfg.ar, NextOp(cfg, before, c))
    ensures Play(cfg, before + [c]) == Play(cfg, before) + [NextOp(cfg, before, c)]
  {
    hide Run, Recall, NoPeak, AllEnd, Grants;
    AllEndLast(cfg.ar, before, c);
    CallReadingsLast(before, c);
    NoPeakSettles(cfg.ar, CallReadings(before), c.current);
    PlayIsForgetful(cfg, before);
    assert (before + [c])[..|before|] == before;
  }

  lemma OnKeyLast(before: seq<Call>, c: Call, key: string)
    ensures OnKey(before + [c], key) == if IsOn(c, key) then OnKey(before, key) + [c] else OnKey(before, key)
  {
    assert (before + [c])[..|before|] == before;
    assert OnKey(before, key) + [] == OnKey(before, key);
  }

  lemma HeardLast(before: seq<Call>, answers: seq<Answer>, c: Call, answer: Answer, key: string)
    requires |before| == |answers|
    ensures Heard(before + [c], answers + [answer], key)
         == if IsOn(c, key) then Heard(before, answers, key) + [Visible(answer)] else Heard(before, answers, key)
  {
    assert (before + [c])[..|before|] == before && (answers + [answer])[..|before|] == answers;
    assert Heard(before, answers, key) + [] == Heard(before, answers, key);
  }

  /** The run of all calls and the run of those on the key are in step. */
  ghost predicate AreInStep(cfg: Config, calls: seq<Call>, some: seq<Call>, key: string, which: seq<nat>)
    requires ValidConfig(cfg) && AllEnd(cfg.ar, calls) && AllEnd(cfg.ar, some)
  {
    var all, part := Play(cfg, calls), Play(cfg, some);
    var x, y := Recall(cfg, all), Recall(cfg, part);
    && Alike(x.0, y.0, key, Grants(all, x.1, key), Grants(part, y.1, key), which)
    && Heard(calls, x.1, key) == Heard(some, y.1, key)
  }

  lemma StepOnKey(cfg: Config, calls: seq<Call>, some: seq<Call>, c: Call, key: string, which: seq<nat>)
    returns (which': seq<nat>)
    requires ValidConfig(cfg) && IsOn(c, key)
    requires AllEnd(cfg.ar, calls + [c]) && NoPeak(cfg.ar, CallReadings(calls + [c]))
    requires AllEnd(cfg.ar, some + [c]) && NoPeak(cfg.ar, CallReadings(some + [c]))
    requires AllEnd(cfg.ar, calls) && AllEnd(cfg.ar, some) && AreInStep(cfg, calls, some, key, which)
    ensures AreInStep(cfg, calls + [c], some + [c], key, which')
  {
    hide Alike, NoPeak, Consult, Recall, Play, Grants, AllEnd, Visible, Heard, Resolve, CallReadings;
    var all, part := Play(cfg, calls), Play(cfg, some);
    var a, x := Recall(cfg, all).0, Recall(cfg, all).1;
    var b, y := Recall(cfg, part).0, Recall(cfg, part).1;
    PlayExtended(cfg, calls, c);
    PlayExtended(cfg, some, c);
    AllEndLast(cfg.ar, calls, c);
    var op, oq := NextOp(cfg, calls, c), NextOp(cfg, some, c);
    RecallExtended(cfg, all, op);
    RecallExtended(cfg, part, oq);
    which' := CallOnKey(cfg, a, b, key, Grants(all, x, key), Grants(part, y, key), which, c);
    var p, q := Consult(cfg, a, op).1, Consult(cfg, b, oq).1;
    GrantsExtended(all, x, op, p, key);
    GrantsExtended(part, y, oq, q, key);
    ResolvedIsOn(c, Grants(all, x, key), key);
    ResolvedIsOn(c, Grants(part, y, key), key);
    HeardLast(calls, x, c, p, key);
    HeardLast(some, y, c, q, key);
    assert Grants(all, x, key) + [] == Grants(all, x, key) && Grants(part, y, key) + [] == Grants(part, y, key);
  }

  lemma ResolvedIsOn(c: Call, gs: seq<Reservation>, key: string)
    ensures IsOn(c, key) ==>
        && KeyOf(c) == key && (Resolve(c, gs).Reserve? <==> c.Ask?)
        && (c.Ask? ==> Resolve(c, gs).key == key)
    ensures !IsOn(c, key) && Resolve(c, gs).Reserve? ==> Resolve(c, gs).key != key
  {
  }

  lemma StepElsewhere(cfg: Config, calls: seq<Call>, some: seq<Call>, c: Call, key: string, which: seq<nat>)
    requires ValidConfig(cfg) && !IsOn(c, key)
    requires AllEnd(cfg.ar, calls + [c]) && NoPeak(cfg.ar, CallReadings(calls + [c]))
    requires AllEnd(cfg.ar, calls) && AllEnd(cfg.ar, some) && AreInStep(cfg, calls, some, key, which)
    ensures AreInStep(cfg, calls + [c], some, key, which)
  {
    hide Alike, NoPeak, Consult, Recall, Play, Grants, AllEnd, Visible, Heard, Resolve, CallReadings;
    var all, part := Play(cfg, calls), Play(cfg, some);
    var a, x := Recall(cfg, all).0, Recall(cfg, all).1;
    var b, y := Recall(cfg, part).0, Recall(cfg, part).1;
    PlayExtended(cfg, calls, c);
    AllEndLast(cfg.ar, calls, c);
    var op, others := NextOp(cfg, calls, c), Grants(all, x, KeyOf(c));
    RecallExtended(cfg, all, op);
    GrantsHaveTheirKey(cfg, all, KeyOf(c));
    assert others == Grants(all, Recall(cfg, all).1, KeyOf(c));
    CallElsewhere(cfg, a, b, key, Grants(all, x, key), Grants(part, y, key), which, c, others);
    GrantsExtended(all, x, op, Consult(cfg, a, op).1, key);
    ResolvedIsOn(c, others, key);
    HeardLast(calls, x, c, Consult(cfg, a, op).1, key);
    assert Grants(all, x, key) + [] == Grants(all, x, key);
  }

  lemma {:induction false} InStep(cfg: Config, calls: seq<Call>, key: string) returns (which: seq<nat>)
    requires ValidConfig(cfg) && AllEnd(cfg.ar, calls) && NoPeak(cfg.ar, CallReadings(calls))
    ensures AllEnd(cfg.ar, OnKey(calls, key)) && AreInStep(cfg, calls, OnKey(calls, key), key, which)
    decreases |calls|
  {
    hide NoPeak, AllEnd, AreInStep, OnKey, CallReadings;
    OnKeyHasNoPeak(cfg.ar, calls, key);
    if calls == [] {
      which := [];
      NothingInStep(cfg, key);
    } else {
      var before, c := calls[..|calls| - 1], calls[|calls| - 1];
      assert calls == before + [c];
      PrefixHasNoPeak(cfg.ar, calls);
      OnKeyLast(before, c, key);
      which := InStep(cfg, before, key);
      if IsOn(c, key) {
        which := StepOnKey(cfg, before, OnKey(before, key), c, key, which);
      } else {
        StepElsewhere(cfg, before, OnKey(before, key), c, key, which);
      }
    }
  }

  lemma NothingInStep(cfg: Config, key: string)
    requires ValidConfig(cfg)
    ensures OnKey([], key) == [] && AllEnd(cfg.ar, []) && AreInStep(cfg, [], [], key, [])
  {
  }

  /** Keys are independent: in any run, however the calls on all keys and the cleanups alternate, the
      users of a key hear exactly what they would hear on a budget that only they use. */
  lemma KeysAreIndependent(cfg: Config, calls: seq<Call>, key: string)
    requires ValidConfig(cfg) && AllEnd(cfg.ar, calls) && NoPeak(cfg.ar, CallReadings(calls))
    ensures AllEnd(cfg.ar, OnKey(calls, key))
    ensures Heard(calls, Run(cfg, Play(cfg, calls)).1, key)
         == Heard(OnKey(calls, key), Run(cfg, Play(cfg, OnKey(calls, key))).1, key)
  {
    hide NoPeak, AllEnd, Run, Recall, Play, Heard, OnKey, CallReadings, Alike, Grants;
    OnKeyHasNoPeak(cfg.ar, calls, key);
    PlayIsForgetful(cfg, calls);
    PlayIsForgetful(cfg, OnKey(calls, key));
    var which := InStep(cfg, calls, key);
  }
}
