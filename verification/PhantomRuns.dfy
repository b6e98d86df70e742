/** What probe and remove of the phantom driver keep, over every run of them: failed probes and bind-unbind
    pairs leave nothing behind, minors are distinct, and unloading the module returns everything. */
module PhantomRuns {
  import opened Kernel
  import opened PhantomBind

  // --- one probe ---------------------------------------------------------------------------------

  /** A probe that fails leaves the table, the bindings and every holding as they were, whichever
      acquisition failed; the log it adds is the mirror of what it acquired. */
  lemma FailedProbeChangesNothing(s: State, major: nat, d: DevId, a: Answers, r: Resource)
    requires |s.slots| == MAX_MINORS && Probe(s, major, d, a).1 != 0
    ensures var s' := Probe(s, major, d, a).0;
            && s'.slots == s.slots && s'.bound == s.bound
            && Held(s'.log, r) == Held(s.log, r)
            && var k := FirstFailure(FirstFree(s.slots) == MAX_MINORS, a, 0);
               s'.log == s.log + Trace(Plan(major, d, FirstFree(s.slots)), 0, k)
  {
    var k := FirstFailure(FirstFree(s.slots) == MAX_MINORS, a, 0);
    var plan := Plan(major, d, FirstFree(s.slots));
    HeldConcat(s.log, Trace(plan, 0, k), r);
    HeldOnLadder(plan, 0, k, r);
  }

  lemma WorksIff(full: bool, a: Answers)
    ensures Works(full, a, STEPS) <==> forall j: nat | j < STEPS :: Code(full, a, j) == 0
  {
    if forall j: nat | j < STEPS :: Code(full, a, j) == 0 {
      assert Code(full, a, 0) == Code(full, a, 1) == Code(full, a, 2) == Code(full, a, 3) == 0;
      assert Code(full, a, 4) == Code(full, a, 5) == Code(full, a, 6) == Code(full, a, 7) == 0;
    }
  }

  /** Probe returns zero exactly when the table has room and the kernel grants all it is asked for;
      whether the node can be created does not matter. */
  lemma ProbeSucceedsIff(s: State, major: nat, d: DevId, a: Answers)
    requires |s.slots| == MAX_MINORS
    ensures Probe(s, major, d, a).1 == 0 <==>
            && (exists m | 0 <= m < MAX_MINORS :: s.slots[m] == 0)
            && a.enable == 0 && a.regions == 0 && a.memory && a.conf && a.input && a.irq == 0 && a.cdev == 0
  {
    var full := FirstFree(s.slots) == MAX_MINORS;
    WorksIff(full, a);
    var k := FirstFailure(full, a, 0);
    assert k < STEPS ==> Code(full, a, k) != 0;
  }

  // --- the invariant ---------------------------------------------------------------------------------

  /** How often the module holds `r` when it is in state `s`. */
  ghost function Expected(s: State, r: Resource): int {
    match r
    case Slot(m) => if m < |s.slots| && s.slots[m] != 0 then 1 else 0
    case CharDev(t) => if exists d | d in s.bound :: s.bound[d].t == t then 1 else 0
    case Node(t) => if exists d | d in s.bound :: s.bound[d] == Binding(t, true) then 1 else 0
    case Class => 0
    case MajorRange => 0
    case PciDriver => 0
    case _ => if r.d in s.bound then 1 else 0
  }

  function Used(x: int): bool { x != 0 }

  ghost predicate TableOk(s: State, major: nat) {
    && |s.slots| == MAX_MINORS
    && (forall m | 0 <= m < MAX_MINORS :: s.slots[m] == 0 || s.slots[m] == 1)
    && (forall d | d in s.bound :: IsBound(s, major, d) && s.slots[Minor(s.bound[d].t)] == 1)
    && (forall d, e | d in s.bound && e in s.bound && d != e :: s.bound[d].t != s.bound[e].t)
    && (forall m | 0 <= m < MAX_MINORS && s.slots[m] == 1 :: OwnerExists(s, MkDev(major, m)))
    && |s.bound| == Count(s.slots, Used)
  }

  ghost predicate OwnerExists(s: State, t: nat) {
    exists d | d in s.bound :: s.bound[d].t == t
  }

  /** `base` is what is held by others than the bindings, the module itself among them. */
  ghost predicate Inv(s: State, major: nat, base: seq<Event>) {
    && TableOk(s, major)
    && Sound(s.log)
    && forall r :: Held(s.log, r) == Held(base, r) + Expected(s, r)
  }

  lemma InitInv(major: nat, base: seq<Event>)
    requires Sound(base)
    ensures Inv(State(seq(MAX_MINORS, _ => 0), map[], base), major, base)
  {
    var slots := seq(MAX_MINORS, _ => 0);
    NoneUsed(slots);
  }

  lemma {:induction false} NoneUsed(slots: seq<int>)
    requires forall m | 0 <= m < |slots| :: slots[m] == 0
    ensures Count(slots, Used) == 0
    decreases |slots|
  {
    if slots != [] { NoneUsed(slots[..|slots| - 1]); }
  }

  /** How often each resource is in the plan of a probe: once if it is one of the eight. */
  lemma TimesInPlan(major: nat, d: DevId, m: nat, r: Resource)
    ensures Times(Plan(major, d, m), STEPS, r) ==
            match r
            case Slot(n) => if n == m then 1 else 0
            case CharDev(t) => if t == MkDev(major, m) then 1 else 0
            case Node(_) => 0
            case Class => 0
            case MajorRange => 0
            case PciDriver => 0
            case _ => if r.d == d then 1 else 0
  {
    var p := Plan(major, d, m);
    PlanIs(major, d, m);
    assert Times(p, 1, r) == if r == p[0] then 1 else 0;
    assert Times(p, 2, r) == (if r == p[0] then 1 else 0) + (if r == p[1] then 1 else 0);
    assert Times(p, 4, r) == Times(p, 2, r) + (if r == p[2] then 1 else 0) + (if r == p[3] then 1 else 0);
    assert Times(p, 6, r) == Times(p, 4, r) + (if r == p[4] then 1 else 0) + (if r == p[5] then 1 else 0);
    assert Times(p, 8, r) == Times(p, 6, r) + (if r == p[6] then 1 else 0) + (if r == p[7] then 1 else 0);
  }

  /** What a successful probe adds to each holding ... */
  lemma HeldAfterProbe(s: State, major: nat, d: DevId, a: Answers, r: Resource)
    requires |s.slots| == MAX_MINORS && Probe(s, major, d, a).1 == 0
    ensures var t := MkDev(major, FirstFree(s.slots));
            Held(Probe(s, major, d, a).0.log, r) == Held(s.log, r) +
            Times(Plan(major, d, FirstFree(s.slots)), STEPS, r) + (if a.node && r == Node(t) then 1 else 0)
  {
    var plan := Plan(major, d, FirstFree(s.slots));
    var top := Trace(plan, STEPS, STEPS);
    var node := IfNode(a.node, Take(Node(MkDev(major, FirstFree(s.slots)))));
    assert Held(node, r) == if a.node && r == Node(MkDev(major, FirstFree(s.slots))) then 1 else 0 by {
      if a.node { assert node[..0] == []; }
    }
    HeldConcat(s.log, top + node, r);
    HeldConcat(top, node, r);
    HeldOnLadder(plan, STEPS, STEPS, r);
  }

  /** ... and what remove takes from it. */
  lemma HeldAfterRemove(s: State, major: nat, d: DevId, r: Resource)
    requires IsBound(s, major, d)
    ensures var b := s.bound[d];
            Held(Remove(s, major, d).log, r) == Held(s.log, r) -
            Times(Plan(major, d, Minor(b.t)), STEPS, r) - (if b.node && r == Node(b.t) then 1 else 0)
  {
    var b := s.bound[d];
    var plan := Plan(major, d, Minor(b.t));
    var node := IfNode(b.node, Give(Node(b.t)));
    assert Held(node, r) == if b.node && r == Node(b.t) then -1 else 0 by {
      if b.node { assert node[..0] == []; }
    }
    HeldConcat(s.log, node + Down(plan, 0, STEPS), r);
    HeldConcat(node, Down(plan, 0, STEPS), r);
    HeldOnWayDown(plan, 0, STEPS, r);
  }

  // --- bind and unbind ---------------------------------------------------------------------------------

  /** A successful probe followed by remove is the identity on the table, the bindings and every holding,
      with or without a node. */
  lemma ProbeThenRemoveIsIdentity(s: State, major: nat, d: DevId, a: Answers, r: Resource)
    requires |s.slots| == MAX_MINORS && d !in s.bound && Probe(s, major, d, a).1 == 0
    ensures var s1 := Probe(s, major, d, a).0;
            && IsBound(s1, major, d)
            && var s2 := Remove(s1, major, d);
               s2.slots == s.slots && s2.bound == s.bound && Held(s2.log, r) == Held(s.log, r)
  {
    var m := FirstFree(s.slots);
    var s1 := Probe(s, major, d, a).0;
    assert Code(m == MAX_MINORS, a, 1) == 0;
    MinorOfMkDev(major, m);
    HeldAfterProbe(s, major, d, a, r);
    HeldAfterRemove(s1, major, d, r);
    assert s1.slots[m := 0] == s.slots;
    assert s1.bound - {d} == s.bound;
  }

  // --- every run -----------------------------------------------------------------------------------------

  datatype Action = Bind(d: DevId, a: Answers) | Unbind(d: DevId)

  /** The bus offers only devices without a driver and takes back only those this driver has. */
  predicate Enabled(s: State, major: nat, x: Action) {
    |s.slots| == MAX_MINORS && if x.Bind? then x.d !in s.bound else IsBound(s, major, x.d)
  }

  function Next(s: State, major: nat, x: Action): State
    requires Enabled(s, major, x)
  {
    match x
    case Bind(d, a) => Probe(s, major, d, a).0
    case Unbind(d) => Remove(s, major, d)
  }

  function After(base: seq<Event>, major: nat, run: seq<Action>): Option<State> {
    if run == [] then Some(State(seq(MAX_MINORS, _ => 0), map[], base))
    else
      match After(base, major, run[..|run| - 1])
      case None => None
      case Some(s) => if Enabled(s, major, run[|run| - 1]) then Some(Next(s, major, run[|run| - 1])) else None
  }

  /** A new owner of a free minor keeps the table in order ... */
  lemma AddKeepsTable(s: State, s1: State, major: nat, d: DevId, m: nat, node: bool)
    requires TableOk(s, major) && d !in s.bound && m < MAX_MINORS && s.slots[m] == 0
    requires s1.slots == s.slots[m := 1] && s1.bound == s.bound[d := Binding(MkDev(major, m), node)]
    ensures TableOk(s1, major)
  {
    MinorOfMkDev(major, m);
    CountUpdate(s.slots, m, 1, Used);
    forall e | e in s1.bound
      ensures IsBound(s1, major, e) && s1.slots[Minor(s1.bound[e].t)] == 1
      ensures e != d ==> s1.bound[e].t != s1.bound[d].t
    {
      if e != d { assert IsBound(s, major, e) && s.slots[Minor(s.bound[e].t)] == 1; }
    }
    forall n | 0 <= n < MAX_MINORS && s1.slots[n] == 1
      ensures OwnerExists(s1, MkDev(major, n))
    {
      if n == m {
        assert s1.bound[d].t == MkDev(major, n);
      } else {
        assert OwnerExists(s, MkDev(major, n));
        var e :| e in s.bound && s.bound[e].t == MkDev(major, n);
        assert s1.bound[e].t == MkDev(major, n);
      }
    }
  }

  lemma BindKeepsTable(s: State, major: nat, d: DevId, a: Answers)
    requires TableOk(s, major) && d !in s.bound
    ensures TableOk(Probe(s, major, d, a).0, major)
  {
    if Probe(s, major, d, a).1 == 0 {
      var m := FirstFree(s.slots);
      assert Code(m == MAX_MINORS, a, 1) == 0;
      AddKeepsTable(s, Probe(s, major, d, a).0, major, d, m, a.node);
    } else {
      FailedProbeChangesNothing(s, major, d, a, Class);
    }
  }

  /** When an owner leaves, the other minors in use keep theirs ... */
  lemma OwnersStay(s: State, s1: State, major: nat, d: DevId, n: nat)
    requires TableOk(s, major) && d in s.bound
    requires s1.bound == s.bound - {d} && s1.slots == s.slots[Minor(s.bound[d].t) := 0]
    requires n < MAX_MINORS && s1.slots[n] == 1
    ensures OwnerExists(s1, MkDev(major, n))
  {
    assert OwnerExists(s, MkDev(major, n));
    var e :| e in s.bound && s.bound[e].t == MkDev(major, n);
    MinorOfMkDev(major, n);
    assert e != d && s1.bound[e].t == MkDev(major, n);
  }

  /** ... and the table stays in order. */
  lemma UnbindKeepsTable(s: State, major: nat, d: DevId)
    requires TableOk(s, major) && d in s.bound
    ensures TableOk(Remove(s, major, d), major)
  {
    var s1 := Remove(s, major, d);
    assert |s1.bound| == Count(s1.slots, Used) by {
      CountUpdate(s.slots, Minor(s.bound[d].t), 0, Used);
      assert s1.bound.Keys == s.bound.Keys - {d};
      assert |s1.bound| == |s.bound| - 1;
    }
    forall e | e in s1.bound
      ensures IsBound(s1, major, e) && s1.slots[Minor(s1.bound[e].t)] == 1
    {
      assert IsBound(s, major, e) && IsBound(s, major, d) && s.bound[e].t != s.bound[d].t;
    }
    forall n | 0 <= n < MAX_MINORS && s1.slots[n] == 1
      ensures OwnerExists(s1, MkDev(major, n))
    {
      OwnersStay(s, s1, major, d, n);
    }
  }

  lemma BindKeepsHoldings(s: State, major: nat, base: seq<Event>, d: DevId, a: Answers, r: Resource)
    requires Inv(s, major, base) && d !in s.bound
    ensures var s1 := Probe(s, major, d, a).0; Held(s1.log, r) == Held(base, r) + Expected(s1, r)
  {
    var s1 := Probe(s, major, d, a).0;
    if Probe(s, major, d, a).1 != 0 {
      FailedProbeChangesNothing(s, major, d, a, r);
    } else {
      var m := FirstFree(s.slots);
      assert Code(m == MAX_MINORS, a, 1) == 0;
      HeldAfterProbe(s, major, d, a, r);
      TimesInPlan(major, d, m, r);
      NewIsExpected(s, s1, major, d, m, a.node, r);
    }
  }

  predicate Added(s: State, s1: State, major: nat, d: DevId, m: nat, node: bool) {
    && d !in s.bound && m < MAX_MINORS && |s.slots| == MAX_MINORS && s.slots[m] == 0
    && s1.slots == s.slots[m := 1] && s1.bound == s.bound[d := Binding(MkDev(major, m), node)]
  }

  /** No other device has the device number of a new owner. */
  lemma NewNumberIsNew(s: State, major: nat, m: nat, e: DevId)
    requires TableOk(s, major) && e in s.bound && m < MAX_MINORS && s.slots[m] == 0
    ensures s.bound[e].t != MkDev(major, m)
  {
    MinorOfMkDev(major, m);
    assert IsBound(s, major, e) && s.slots[Minor(s.bound[e].t)] == 1;
  }

  lemma NewNumberIsExpected(s: State, s1: State, major: nat, d: DevId, m: nat, node: bool, t: nat)
    requires TableOk(s, major) && Added(s, s1, major, d, m, node)
    ensures Expected(s1, CharDev(t)) == Expected(s, CharDev(t)) + (if t == MkDev(major, m) then 1 else 0)
    ensures Expected(s1, Node(t)) == Expected(s, Node(t)) + (if node && t == MkDev(major, m) then 1 else 0)
  {
    assert s1.bound[d] == Binding(MkDev(major, m), node);
    forall e | e in s.bound
      ensures s.bound[e].t != MkDev(major, m) && s1.bound[e] == s.bound[e]
    {
      NewNumberIsNew(s, major, m, e);
    }
  }

  lemma NewIsExpected(s: State, s1: State, major: nat, d: DevId, m: nat, node: bool, r: Resource)
    requires TableOk(s, major) && Added(s, s1, major, d, m, node)
    ensures Expected(s1, r) == Expected(s, r) + Times(Plan(major, d, m), STEPS, r) +
                               (if node && r == Node(MkDev(major, m)) then 1 else 0)
  {
    TimesInPlan(major, d, m, r);
    if r.CharDev? || r.Node? {
      NewNumberIsExpected(s, s1, major, d, m, node, r.t);
    }
  }

  lemma RemoveInvertsAdd(s: State, major: nat, d: DevId)
    requires |s.slots| == MAX_MINORS && IsBound(s, major, d) && s.slots[Minor(s.bound[d].t)] == 1
    ensures var s1, b, m := Remove(s, major, d), s.bound[d], Minor(s.bound[d].t);
            && d !in s1.bound && m < MAX_MINORS && s1.slots[m] == 0
            && s.slots == s1.slots[m := 1] && s.bound == s1.bound[d := Binding(MkDev(major, m), b.node)]
  {
    assert s.bound[d] == Binding(MkDev(major, Minor(s.bound[d].t)), s.bound[d].node);
    assert (s.bound - {d})[d := s.bound[d]] == s.bound;
  }

  lemma GoneIsNotExpected(s: State, major: nat, d: DevId, r: Resource)
    requires TableOk(s, major) && d in s.bound
    ensures var b := s.bound[d];
            Expected(Remove(s, major, d), r) == Expected(s, r) - Times(Plan(major, d, Minor(b.t)), STEPS, r) -
                                                (if b.node && r == Node(b.t) then 1 else 0)
  {
    var b := s.bound[d];
    UnbindKeepsTable(s, major, d);
    RemoveInvertsAdd(s, major, d);
    NewIsExpected(Remove(s, major, d), s, major, d, Minor(b.t), b.node, r);
  }

  lemma UnbindKeepsHoldings(s: State, major: nat, base: seq<Event>, d: DevId, r: Resource)
    requires Inv(s, major, base) && d in s.bound
    ensures Held(Remove(s, major, d).log, r) == Held(base, r) + Expected(Remove(s, major, d), r)
  {
    HeldAfterRemove(s, major, d, r);
    GoneIsNotExpected(s, major, d, r);
  }

  lemma HeldIsNatural(s: State, major: nat, base: seq<Event>, r: Resource)
    requires Inv(s, major, base) && forall q :: Held(base, q) >= 0
    ensures Held(s.log, r) >= 0
  {
  }

  lemma BindIsSound(s: State, major: nat, base: seq<Event>, d: DevId, a: Answers)
    requires Inv(s, major, base) && forall q :: Held(base, q) >= 0
    ensures Sound(Probe(s, major, d, a).0.log)
  {
    var m := FirstFree(s.slots);
    var plan := Plan(major, d, m);
    var k := FirstFailure(m == MAX_MINORS, a, 0);
    forall r ensures Held(s.log, r) >= 0 { HeldIsNatural(s, major, base, r); }
    TraceIsSound(s.log, plan, if k < STEPS then 0 else STEPS, k);
    if k == STEPS {
      var top := Trace(plan, STEPS, STEPS);
      if a.node {
        SoundStep(s.log, top, Take(Node(MkDev(major, m))));
      } else {
        assert top + [] == top;
      }
    }
  }

  /** Also without its node a bound device holds all of its plan. */
  lemma HoldsItsPlan(s: State, major: nat, base: seq<Event>, d: DevId, r: Resource)
    requires Inv(s, major, base) && d in s.bound && forall q :: Held(base, q) >= 0
    ensures var b := s.bound[d];
            Held(s.log + IfNode(b.node, Give(Node(b.t))), r) >= Times(Plan(major, d, Minor(b.t)), STEPS, r)
  {
    var b := s.bound[d];
    GoneIsNotExpected(s, major, d, r);
    HeldConcat(s.log, IfNode(b.node, Give(Node(b.t))), r);
    if b.node { assert IfNode(b.node, Give(Node(b.t)))[..0] == []; }
    assert Expected(Remove(s, major, d), r) >= 0;
  }

  lemma NodeComesOff(s: State, major: nat, base: seq<Event>, d: DevId)
    requires Inv(s, major, base) && d in s.bound && forall q :: Held(base, q) >= 0
    ensures Sound(s.log + IfNode(s.bound[d].node, Give(Node(s.bound[d].t))))
  {
    var b := s.bound[d];
    if b.node {
      assert s.bound[d] == Binding(b.t, true);
      assert Expected(s, Node(b.t)) == 1;
      assert s.log + [] == s.log;
      SoundStep(s.log, [], Give(Node(b.t)));
    } else {
      assert s.log + [] == s.log;
    }
  }

  lemma UnbindIsSound(s: State, major: nat, base: seq<Event>, d: DevId)
    requires Inv(s, major, base) && d in s.bound && forall q :: Held(base, q) >= 0
    ensures Sound(Remove(s, major, d).log)
  {
    var b := s.bound[d];
    var node := IfNode(b.node, Give(Node(b.t)));
    NodeComesOff(s, major, base, d);
    forall r ensures Held(s.log + node, r) >= Times(Plan(major, d, Minor(b.t)), STEPS, r) {
      HoldsItsPlan(s, major, base, d, r);
    }
    LadderComesDown(s.log, node, Plan(major, d, Minor(b.t)));
  }

  lemma LadderComesDown(log: seq<Event>, node: seq<Event>, plan: seq<Resource>)
    requires |plan| == STEPS && Sound(log + node) && forall r :: Held(log + node, r) >= Times(plan, STEPS, r)
    ensures Sound(log + (node + Down(plan, 0, STEPS)))
  {
    WayDownIsSound(log + node, plan, 0, STEPS);
    assert log + node + Down(plan, 0, STEPS) == log + (node + Down(plan, 0, STEPS));
  }

  lemma {:induction false} RunKeepsInv(base: seq<Event>, major: nat, run: seq<Action>)
    requires After(base, major, run).Some? && Sound(base) && forall q :: Held(base, q) >= 0
    ensures Inv(After(base, major, run).value, major, base)
    decreases |run|
  {
    if run == [] {
      InitInv(major, base);
    } else {
      var x := run[|run| - 1];
      var s := After(base, major, run[..|run| - 1]).value;
      RunKeepsInv(base, major, run[..|run| - 1]);
      StepKeepsInv(s, major, base, x);
    }
  }

  lemma StepKeepsInv(s: State, major: nat, base: seq<Event>, x: Action)
    requires Inv(s, major, base) && Enabled(s, major, x) && forall q :: Held(base, q) >= 0
    ensures Inv(Next(s, major, x), major, base)
  {
    match x {
      case Bind(d, a) =>
        BindKeepsTable(s, major, d, a);
        BindIsSound(s, major, base, d, a);
        forall r ensures Held(Next(s, major, x).log, r) == Held(base, r) + Expected(Next(s, major, x), r) {
          BindKeepsHoldings(s, major, base, d, a, r);
        }
      case Unbind(d) =>
        UnbindKeepsTable(s, major, d);
        UnbindIsSound(s, major, base, d);
        forall r ensures Held(Next(s, major, x).log, r) == Held(base, r) + Expected(Next(s, major, x), r) {
          UnbindKeepsHoldings(s, major, base, d, r);
        }
    }
  }

  // --- the theorems -----------------------------------------------------------------------------------------

  predicate Owns(s: State, major: nat, d: DevId, m: nat) {
    d in s.bound && s.bound[d].t == MkDev(major, m)
  }

  /** In every run bound devices have different minors, a table entry is 1 exactly when a bound device owns
      that minor, and the minor that remove recovers from the device number is the one owned. */
  lemma MinorsAreOwned(base: seq<Event>, major: nat, run: seq<Action>)
    requires After(base, major, run).Some? && Sound(base) && forall q :: Held(base, q) >= 0
    ensures var s := After(base, major, run).value;
            && (forall m | 0 <= m < MAX_MINORS :: s.slots[m] == 1 <==> exists d :: Owns(s, major, d, m))
            && (forall m | 0 <= m < MAX_MINORS :: s.slots[m] != 1 ==> s.slots[m] == 0)
            && (forall d | d in s.bound :: Owns(s, major, d, Minor(s.bound[d].t)) && Minor(s.bound[d].t) < MAX_MINORS)
            && (forall d, e, m | Owns(s, major, d, m) && Owns(s, major, e, m) :: d == e)
  {
    RunKeepsInv(base, major, run);
    var s := After(base, major, run).value;
    forall m | 0 <= m < MAX_MINORS
      ensures s.slots[m] == 1 <==> exists d :: Owns(s, major, d, m)
    {
      if s.slots[m] == 1 {
        assert OwnerExists(s, MkDev(major, m));
        var d :| d in s.bound && s.bound[d].t == MkDev(major, m);
        assert Owns(s, major, d, m);
      }
      if d :| Owns(s, major, d, m) {
        MinorOfMkDev(major, m);
        assert IsBound(s, major, d);
      }
    }
  }

  /** The first acquisition that fails is that of a minor. */
  predicate FailsForLackOfMinor(s: State, a: Answers)
    requires |s.slots| == MAX_MINORS
  {
    FirstFailure(FirstFree(s.slots) == MAX_MINORS, a, 0) == 1
  }

  lemma SecondStepFails(full: bool, a: Answers)
    ensures FirstFailure(full, a, 0) == 1 <==> a.enable == 0 && full
  {
    assert Code(full, a, 0) == a.enable && (Code(full, a, 1) != 0 <==> full);
  }

  /** The next probe gets the least minor that nobody owns, and whatever the kernel answers it is for lack of one
      that it fails exactly when the device could be enabled and eight devices are bound. */
  lemma NextProbe(base: seq<Event>, major: nat, run: seq<Action>, d: DevId, a: Answers)
    requires After(base, major, run).Some? && Sound(base) && forall q :: Held(base, q) >= 0
    requires d !in After(base, major, run).value.bound
    ensures var s := After(base, major, run).value;
            var (s', retval) := Probe(s, major, d, a);
            && (retval == 0 ==> exists m ::
                  && 0 <= m < MAX_MINORS && Owns(s', major, d, m) && s.slots[m] == 0
                  && forall n | 0 <= n < m :: s.slots[n] == 1)
            && (FailsForLackOfMinor(s, a) <==> a.enable == 0 && |s.bound| == 8)
            && (FailsForLackOfMinor(s, a) ==> retval == -EIO)
            && |s.bound| <= MAX_MINORS
  {
    RunKeepsInv(base, major, run);
    var s := After(base, major, run).value;
    var (s', retval) := Probe(s, major, d, a);
    CountAll(s.slots, Used);
    var m := FirstFree(s.slots);
    if retval == 0 {
      assert Code(m == MAX_MINORS, a, 1) == 0;
      assert Owns(s', major, d, m) && s.slots[m] == 0;
    }
    SecondStepFails(m == MAX_MINORS, a);
  }

  /** In every run nothing is given back that is not held at that moment, failed probes included. */
  lemma NothingIsReleasedTwice(base: seq<Event>, major: nat, run: seq<Action>)
    requires After(base, major, run).Some? && Sound(base) && forall q :: Held(base, q) >= 0
    ensures Sound(After(base, major, run).value.log)
  {
    RunKeepsInv(base, major, run);
  }

  /** Taking every device away from the driver, in the order of `order`. */
  function UnbindAll(s: State, major: nat, order: seq<DevId>): State
    decreases |order|
  {
    if order == [] || !IsBound(s, major, order[0]) then s
    else UnbindAll(Remove(s, major, order[0]), major, order[1..])
  }

  ghost predicate ListsBound(s: State, order: seq<DevId>) {
    && (forall d :: d in s.bound <==> d in order)
    && (forall i, j | 0 <= i < j < |order| :: order[i] != order[j])
  }

  lemma RestIsListed(s: State, major: nat, order: seq<DevId>)
    requires order != [] && ListsBound(s, order) && IsBound(s, major, order[0])
    ensures ListsBound(Remove(s, major, order[0]), order[1..])
  {
    var d := order[0];
    forall e ensures e in s.bound - {d} <==> e in order[1..] {
      assert e in order <==> e == d || e in order[1..];
      assert d !in order[1..];
    }
  }

  lemma NothingBound(s: State, major: nat, base: seq<Event>, r: Resource)
    requires Inv(s, major, base) && s.bound == map[]
    ensures s.slots == seq(MAX_MINORS, _ => 0) && Sound(s.log) && Held(s.log, r) == Held(base, r)
  {
    forall m | 0 <= m < MAX_MINORS ensures s.slots[m] == 0 {
      assert !OwnerExists(s, MkDev(major, m));
    }
  }

  /** Whatever was bound and in whatever order it goes, afterwards the table is empty and only what was held
      before the first probe is still held. */
  lemma {:induction false} UnbindAllReturnsEverything(s: State, major: nat, base: seq<Event>, order: seq<DevId>,
                                                      r: Resource)
    requires Inv(s, major, base) && forall q :: Held(base, q) >= 0
    requires ListsBound(s, order)
    ensures var s' := UnbindAll(s, major, order);
            && s'.bound == map[]
            && s'.slots == seq(MAX_MINORS, _ => 0)
            && Sound(s'.log)
            && Held(s'.log, r) == Held(base, r)
    decreases |order|
  {
    if order == [] {
      assert s.bound == map[];
      NothingBound(s, major, base, r);
    } else {
      var d := order[0];
      assert d in order && IsBound(s, major, d);
      StepKeepsInv(s, major, base, Unbind(d));
      RestIsListed(s, major, order);
      UnbindAllReturnsEverything(Remove(s, major, d), major, base, order[1..], r);
    }
  }

  // --- loading and unloading the module -------------------------------------------------------------------

  const INIT_PLAN: seq<Resource> := [Class, MajorRange, PciDriver]

  /** Loading acquires the class, the major number and the driver's place on the bus, or unwinds. */
  method PhantomInit(classError: int, regionError: int, driverError: int) returns (retval: int, log: seq<Event>)
    ensures retval == 0 <==> classError == 0 && regionError == 0 && driverError == 0
    ensures retval == 0 ==> log == Trace(INIT_PLAN, 3, 3)
    ensures retval != 0 ==> exists k: nat | k < 3 ::
              && log == Trace(INIT_PLAN, 0, k) && retval == [classError, regionError, driverError][k]
              && forall j | 0 <= j < k :: [classError, regionError, driverError][j] == 0
  {
    log := [];
    label Err: {
      retval := classError;
      if retval != 0 {
        assert log == Trace(INIT_PLAN, 0, 0);
        break Err;
      }
      log := log + [Take(Class)];
      label ErrClass: {
        retval := regionError;
        if retval != 0 {
          break ErrClass;
        }
        log := log + [Take(MajorRange)];
        label ErrUnchr: {
          retval := driverError;
          if retval != 0 {
            break ErrUnchr;
          }
          log := log + [Take(PciDriver)];
          assert log == Trace(INIT_PLAN, 3, 3);
          retval := 0;
          return;
        }
        log := log + [Give(MajorRange)];
        assert log == Trace(INIT_PLAN, 1, 2);
      }
      log := log + [Give(Class)];
      assert log == Trace(INIT_PLAN, 0, if classError == 0 == regionError then 2 else 1);
    }
  }

  /** Unloading: the bus takes all devices away and forgets the driver, then the range and the class go. */
  function PhantomExit(s: State, major: nat, order: seq<DevId>): State {
    var s1 := UnbindAll(s, major, order);
    s1.(log := s1.log + [Give(PciDriver), Give(MajorRange), Give(Class)])
  }

  /** Unloading goes down the ladder that loading went up. */
  lemma UnloadsInReverse(s: State, major: nat, order: seq<DevId>)
    ensures PhantomExit(s, major, order).log == UnbindAll(s, major, order).log + Down(INIT_PLAN, 0, 3)
  {
    assert Down(INIT_PLAN, 0, 3) == [Give(PciDriver), Give(MajorRange), Give(Class)];
  }

  lemma HeldWhenLoaded(q: Resource)
    ensures Held(Trace(INIT_PLAN, 3, 3), q) == Times(INIT_PLAN, 3, q)
    ensures Sound(Trace(INIT_PLAN, 3, 3))
  {
    HeldOnLadder(INIT_PLAN, 3, 3, q);
    assert [] + Trace(INIT_PLAN, 3, 3) == Trace(INIT_PLAN, 3, 3);
    TraceIsSound([], INIT_PLAN, 3, 3);
  }

  lemma HeldWhenUnloaded(log: seq<Event>, r: Resource)
    requires Sound(log) && forall q :: Held(log, q) == Times(INIT_PLAN, 3, q)
    ensures var log' := log + [Give(PciDriver), Give(MajorRange), Give(Class)];
            Held(log', r) == 0 && Sound(log')
  {
    var down := Down(INIT_PLAN, 0, 3);
    assert down == [Give(PciDriver), Give(MajorRange), Give(Class)];
    WayDownIsSound(log, INIT_PLAN, 0, 3);
    HeldConcat(log, down, r);
    HeldOnWayDown(INIT_PLAN, 0, 3, r);
  }

  /** Loading the module, any run of probes and removes with any failures, and unloading it: nothing is held
      any more, no minor is taken, and nothing was ever released that was not held. */
  lemma LoadRunUnload(major: nat, run: seq<Action>, order: seq<DevId>, r: Resource)
    requires After(Trace(INIT_PLAN, 3, 3), major, run).Some?
    requires ListsBound(After(Trace(INIT_PLAN, 3, 3), major, run).value, order)
    ensures var s := PhantomExit(After(Trace(INIT_PLAN, 3, 3), major, run).value, major, order);
            s.bound == map[] && s.slots == seq(MAX_MINORS, _ => 0) && Held(s.log, r) == 0 && Sound(s.log)
  {
    var base := Trace(INIT_PLAN, 3, 3);
    forall q ensures Held(base, q) == Times(INIT_PLAN, 3, q) && Sound(base) {
      HeldWhenLoaded(q);
    }
    HeldWhenLoaded(r);
    RunKeepsInv(base, major, run);
    var s := After(base, major, run).value;
    var s1 := UnbindAll(s, major, order);
    forall q ensures Held(s1.log, q) == Times(INIT_PLAN, 3, q) {
      UnbindAllReturnsEverything(s, major, base, order, q);
    }
    UnbindAllReturnsEverything(s, major, base, order, r);
    HeldWhenUnloaded(s1.log, r);
  }
}
