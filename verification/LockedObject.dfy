/** Linearizability of an object whose calls all have the shape

      lock; one small step after another on the shared data; unlock

    for any number of threads and every interleaving. Some calls return before they reach the lock.
    A driver is an instance: it supplies the small steps, and proves that the steps of one whole
    call, taken together, are one step of an atomic specification. */
module LockedObject {
  import opened Kernel

  /** One call in progress; every call has its own number. */
  type CallId = nat

  datatype Object<!Op, !Data, !Loc, !Ret> = Object(
    early: Op -> Option<Ret>,                  // Some(r): the call returns r and never locks
    start: Op -> Loc,                          // the call's private variables when it gets the lock
    left: (Op, Loc) -> nat,                    // bound on the small steps still to come; 0 is the unlock
    micro: (Op, Loc, Data) -> (Loc, Data),     // one small step
    result: (Op, Loc) -> Ret)                  // computed from private variables after the unlock

  datatype Pc<Op, Loc, Ret> =
    | Waiting(op: Op)
    | Inside(op: Op, loc: Loc)
    | Leaving(op: Op, ret: Ret)
    | Returned(op: Op, ret: Ret)

  datatype Event<Op, Ret> = Invoke(c: CallId, op: Op) | Return(c: CallId, ret: Ret)

  datatype State<Op, Data, Loc, Ret> = State(
    data: Data,
    owner: Option<CallId>,
    calls: map<CallId, Pc<Op, Loc, Ret>>,
    hist: seq<Event<Op, Ret>>)

  datatype Action<Op> =
    | Begin(c: CallId, op: Op)
    | Bypass(c: CallId)
    | Lock(c: CallId)
    | Micro(c: CallId)
    | Unlock(c: CallId)
    | Finish(c: CallId)

  function Init<Op, Data, Loc, Ret>(d: Data): State<Op, Data, Loc, Ret> {
    State(d, None, map[], [])
  }

  predicate Enabled<Op, Data, Loc, Ret>(o: Object<Op, Data, Loc, Ret>, s: State<Op, Data, Loc, Ret>, a: Action<Op>) {
    if a.Begin? then a.c !in s.calls
    else
      && a.c in s.calls
      && match a {
           case Bypass(c) => s.calls[c].Waiting? && o.early(s.calls[c].op).Some?
           case Lock(c) => s.calls[c].Waiting? && o.early(s.calls[c].op).None? && s.owner.None?
           case Micro(c) => s.calls[c].Inside? && o.left(s.calls[c].op, s.calls[c].loc) > 0
           case Unlock(c) => s.calls[c].Inside? && o.left(s.calls[c].op, s.calls[c].loc) == 0
           case Finish(c) => s.calls[c].Leaving?
         }
  }

  function Next<Op, Data, Loc, Ret>(o: Object<Op, Data, Loc, Ret>, s: State<Op, Data, Loc, Ret>, a: Action<Op>)
    : State<Op, Data, Loc, Ret>
    requires Enabled(o, s, a)
  {
    match a
    case Begin(c, op) => s.(calls := s.calls[c := Waiting(op)], hist := s.hist + [Invoke(c, op)])
    case Bypass(c) =>
      var op := s.calls[c].op;
      s.(calls := s.calls[c := Leaving(op, o.early(op).value)])
    case Lock(c) =>
      var op := s.calls[c].op;
      s.(owner := Some(c), calls := s.calls[c := Inside(op, o.start(op))])
    case Micro(c) =>
      var op := s.calls[c].op;
      var (loc, d) := o.micro(op, s.calls[c].loc, s.data);
      s.(data := d, calls := s.calls[c := Inside(op, loc)])
    case Unlock(c) =>
      var op := s.calls[c].op;
      s.(owner := None, calls := s.calls[c := Leaving(op, o.result(op, s.calls[c].loc))])
    case Finish(c) =>
      var ret := s.calls[c].ret;
      s.(calls := s.calls[c := Returned(s.calls[c].op, ret)], hist := s.hist + [Return(c, ret)])
  }

  /** The state a run ends in; None when some action of it was not enabled. */
  function After<Op, Data, Loc, Ret>(o: Object<Op, Data, Loc, Ret>, d0: Data, run: seq<Action<Op>>)
    : Option<State<Op, Data, Loc, Ret>>
  {
    if run == [] then Some(Init(d0))
    else
      var last := |run| - 1;
      match After(o, d0, run[..last])
      case None => None
      case Some(s) => if Enabled(o, s, run[last]) then Some(Next(o, s, run[last])) else None
  }

  // --- the atomic specification -------------------------------------------------------------

  /** One entry of a sequential order: call `c` did `op` all at once and answered `ret`. */
  datatype Entry<Op, Ret> = Entry(c: CallId, op: Op, ret: Ret)

  type Spec<!Op, !Data, !Ret> = (Op, Data) -> (Data, Ret)

  /** The data after the calls of `log` have run one at a time. */
  function Replay<Op, Data, Ret>(spec: Spec<Op, Data, Ret>, d0: Data, log: seq<Entry<Op, Ret>>): Data {
    if log == [] then d0
    else spec(log[|log| - 1].op, Replay(spec, d0, log[..|log| - 1])).0
  }

  /** Every answer in `log` is the one the atomic specification gives at that point. */
  predicate Legal<Op, Data, Ret(==)>(spec: Spec<Op, Data, Ret>, d0: Data, log: seq<Entry<Op, Ret>>) {
    log == [] ||
    (var last := |log| - 1;
     Legal(spec, d0, log[..last]) && log[last].ret == spec(log[last].op, Replay(spec, d0, log[..last])).1)
  }

  function Effect<Op, Data, Loc, Ret>(o: Object<Op, Data, Loc, Ret>, s: State<Op, Data, Loc, Ret>, a: Action<Op>)
    : seq<Entry<Op, Ret>>
    requires Enabled(o, s, a)
  {
    if a.Unlock? || a.Bypass? then [Entry(a.c, s.calls[a.c].op, Next(o, s, a).calls[a.c].ret)] else []
  }

  /** The order the run itself gives: a call takes its place at the step in which it takes effect, its unlock or
      its early return, and stays there. */
  function Order<Op, Data, Loc, Ret>(o: Object<Op, Data, Loc, Ret>, d0: Data, run: seq<Action<Op>>)
    : seq<Entry<Op, Ret>>
  {
    if run == [] then []
    else
      var last := |run| - 1;
      match After(o, d0, run[..last])
      case None => []
      case Some(s) => Order(o, d0, run[..last]) + (if Enabled(o, s, run[last]) then Effect(o, s, run[last]) else [])
  }

  /** Whatever happens later, the order of what has happened is never revised. */
  lemma {:induction false} OrderIsNeverRevised<Op, Data, Loc, Ret>(
    o: Object<Op, Data, Loc, Ret>, d0: Data, before: seq<Action<Op>>, window: seq<Action<Op>>)
    requires After(o, d0, before + window).Some?
    ensures After(o, d0, before).Some?
    ensures Order(o, d0, before) <= Order(o, d0, before + window)
    decreases |window|
  {
    if window == [] {
      assert before + window == before;
    } else {
      var last := |window| - 1;
      assert (before + window)[..|before| + last] == before + window[..last];
      OrderIsNeverRevised(o, d0, before, window[..last]);
    }
  }

  /** A legal order is legal at each place. */
  lemma {:induction false} LegalAt<Op, Data, Ret>(spec: Spec<Op, Data, Ret>, d0: Data, log: seq<Entry<Op, Ret>>, k: nat)
    requires Legal(spec, d0, log) && k < |log|
    ensures log[k].ret == spec(log[k].op, Replay(spec, d0, log[..k])).1
    decreases |log|
  {
    var last := |log| - 1;
    if k < last {
      LegalAt(spec, d0, log[..last], k);
      assert log[..last][..k] == log[..k];
    }
  }

  predicate Logged<Op, Ret>(log: seq<Entry<Op, Ret>>, c: CallId) {
    exists i | 0 <= i < |log| :: log[i].c == c
  }

  /** Wherever both calls have an entry, that of `a` comes first. */
  ghost predicate Before<Op, Ret>(log: seq<Entry<Op, Ret>>, a: CallId, b: CallId) {
    forall p, q | 0 <= p < |log| && 0 <= q < |log| && log[p].c == a && log[q].c == b :: p < q
  }

  /** A call that returned before another was invoked comes first in `log`. */
  ghost predicate RealTime<Op, Ret>(hist: seq<Event<Op, Ret>>, log: seq<Entry<Op, Ret>>) {
    forall i, j | 0 <= i < j < |hist| && hist[i].Return? && hist[j].Invoke? ::
      Before(log, hist[i].c, hist[j].c)
  }

  /** `log` is a sequential order that explains the history: each call at most once, only calls that
      were invoked and with the arguments they were invoked with, all calls that returned and with the
      answers they returned, every answer legal, and real time respected. */
  ghost predicate Explains<Op, Data, Ret>(spec: Spec<Op, Data, Ret>, d0: Data,
                                          hist: seq<Event<Op, Ret>>, log: seq<Entry<Op, Ret>>)
  {
    && (forall i, j :: 0 <= i < j < |log| ==> log[i].c != log[j].c)
    && (forall i :: 0 <= i < |log| ==> Invoke(log[i].c, log[i].op) in hist)
    && (forall i :: 0 <= i < |hist| && hist[i].Return? ==> Logged(log, hist[i].c))
    && (forall i, k :: 0 <= i < |hist| && hist[i].Return? && 0 <= k < |log| && log[k].c == hist[i].c ==>
                         log[k].ret == hist[i].ret)
    && Legal(spec, d0, log)
    && RealTime(hist, log)
  }

  // --- what an instance has to prove ----------------------------------------------------------

  ghost predicate Progresses<Op(!new), Data(!new), Loc(!new), Ret>(o: Object<Op, Data, Loc, Ret>) {
    forall op, loc, d :: o.left(op, loc) > 0 ==> o.left(op, o.micro(op, loc, d).0) < o.left(op, loc)
  }

  /** Where the remaining small steps of one call lead when nobody interferes. */
  ghost function Run<Op(!new), Data(!new), Loc(!new), Ret>(o: Object<Op, Data, Loc, Ret>, op: Op, loc: Loc, d: Data)
    : (Loc, Data)
    requires Progresses(o)
    decreases o.left(op, loc)
  {
    if o.left(op, loc) == 0 then (loc, d)
    else
      var (loc1, d1) := o.micro(op, loc, d);
      Run(o, op, loc1, d1)
  }

  /** One whole call, run alone. */
  ghost function Whole<Op(!new), Data(!new), Loc(!new), Ret>(o: Object<Op, Data, Loc, Ret>, op: Op, d: Data)
    : (Data, Ret)
    requires Progresses(o)
  {
    match o.early(op)
    case Some(r) => (d, r)
    case None =>
      var (loc, d1) := Run(o, op, o.start(op), d);
      (d1, o.result(op, loc))
  }

  /** `good` describes the data between calls, `mid` the data and the private variables of the call
      that holds the lock. */
  ghost predicate Implements<Op(!new), Data(!new), Loc(!new), Ret(!new)>(
    o: Object<Op, Data, Loc, Ret>, spec: Spec<Op, Data, Ret>, good: Data -> bool, mid: (Op, Loc, Data) -> bool)
  {
    && Progresses(o)
    && (forall op, d :: good(d) ==> Whole(o, op, d) == spec(op, d))
    && (forall op, d :: good(d) ==> good(spec(op, d).0))
    && (forall op, d :: good(d) && o.early(op).None? ==> mid(op, o.start(op), d))
    && (forall op, loc, d :: mid(op, loc, d) && o.left(op, loc) > 0 ==>
                               mid(op, o.micro(op, loc, d).0, o.micro(op, loc, d).1))
  }

  // --- the proof ------------------------------------------------------------------------------

  ghost predicate HistoryMatches<Op, Data, Loc, Ret>(s: State<Op, Data, Loc, Ret>) {
    && (forall i :: 0 <= i < |s.hist| ==> s.hist[i].c in s.calls)
    && (forall i :: 0 <= i < |s.hist| && s.hist[i].Return? ==> s.calls[s.hist[i].c].Returned? &&
                                                                  s.calls[s.hist[i].c].ret == s.hist[i].ret)
    && (forall c :: c in s.calls ==> Invoke(c, s.calls[c].op) in s.hist)
  }

  ghost predicate LogMatches<Op, Data, Loc, Ret>(s: State<Op, Data, Loc, Ret>, log: seq<Entry<Op, Ret>>) {
    && (forall i, j :: 0 <= i < j < |log| ==> log[i].c != log[j].c)
    && (forall i :: 0 <= i < |log| ==>
          && log[i].c in s.calls
          && (s.calls[log[i].c].Leaving? || s.calls[log[i].c].Returned?)
          && s.calls[log[i].c].op == log[i].op
          && s.calls[log[i].c].ret == log[i].ret)
    && (forall c :: c in s.calls && (s.calls[c].Leaving? || s.calls[c].Returned?) ==> Logged(log, c))
    && RealTime(s.hist, log)
  }

  ghost predicate LockMatches<Op(!new), Data(!new), Loc(!new), Ret>(
    o: Object<Op, Data, Loc, Ret>, mid: (Op, Loc, Data) -> bool, s: State<Op, Data, Loc, Ret>, d: Data)
    requires Progresses(o)
  {
    && (forall c :: c in s.calls && s.calls[c].Inside? ==> s.owner == Some(c))
    && match s.owner
       case None => s.data == d
       case Some(c) =>
         && c in s.calls && s.calls[c].Inside?
         && o.early(s.calls[c].op).None?
         && mid(s.calls[c].op, s.calls[c].loc, s.data)
         && Run(o, s.calls[c].op, s.calls[c].loc, s.data) == Run(o, s.calls[c].op, o.start(s.calls[c].op), d)
  }

  ghost predicate Inv<Op(!new), Data(!new), Loc(!new), Ret(!new)>(
    o: Object<Op, Data, Loc, Ret>, spec: Spec<Op, Data, Ret>, good: Data -> bool, mid: (Op, Loc, Data) -> bool,
    d0: Data, s: State<Op, Data, Loc, Ret>, log: seq<Entry<Op, Ret>>)
    requires Progresses(o)
  {
    && HistoryMatches(s)
    && LogMatches(s, log)
    && Legal(spec, d0, log)
    && good(Replay(spec, d0, log))
    && LockMatches(o, mid, s, Replay(spec, d0, log))
  }

  /** A new call changes neither the order nor who comes first in it. */
  lemma BeginKeeps<Op, Data, Loc, Ret>(s: State<Op, Data, Loc, Ret>, s': State<Op, Data, Loc, Ret>,
                                       log: seq<Entry<Op, Ret>>, c: CallId, op: Op)
    requires HistoryMatches(s) && LogMatches(s, log) && c !in s.calls
    requires s'.calls == s.calls[c := Waiting(op)] && s'.hist == s.hist + [Invoke(c, op)]
    ensures HistoryMatches(s') && LogMatches(s', log)
  {
    forall k | k in s'.calls ensures Invoke(k, s'.calls[k].op) in s'.hist {
      if k == c { assert s'.hist[|s.hist|] == Invoke(c, op); }
    }
    forall i, j | 0 <= i < j < |s'.hist| && s'.hist[i].Return? && s'.hist[j].Invoke?
      ensures Before(log, s'.hist[i].c, s'.hist[j].c)
    {
      if j < |s.hist| {
        assert Before(log, s.hist[i].c, s.hist[j].c);
      }
    }
  }

  /** A return to user space: the answer is the one already in the order. */
  lemma FinishKeeps<Op, Data, Loc, Ret>(s: State<Op, Data, Loc, Ret>, s': State<Op, Data, Loc, Ret>,
                                        log: seq<Entry<Op, Ret>>, c: CallId)
    requires HistoryMatches(s) && LogMatches(s, log) && c in s.calls && s.calls[c].Leaving?
    requires s'.calls == s.calls[c := Returned(s.calls[c].op, s.calls[c].ret)]
    requires s'.hist == s.hist + [Return(c, s.calls[c].ret)]
    ensures HistoryMatches(s') && LogMatches(s', log)
  {
    forall i, j | 0 <= i < j < |s'.hist| && s'.hist[i].Return? && s'.hist[j].Invoke?
      ensures Before(log, s'.hist[i].c, s'.hist[j].c)
    {
      assert Before(log, s.hist[i].c, s.hist[j].c);
    }
  }

  /** Moving a call that has not returned on to another point keeps what the history says. */
  lemma MoveKeepsHistory<Op, Data, Loc, Ret>(s: State<Op, Data, Loc, Ret>, s': State<Op, Data, Loc, Ret>,
                                             c: CallId, pc: Pc<Op, Loc, Ret>)
    requires HistoryMatches(s) && c in s.calls && !s.calls[c].Returned?
    requires pc.op == s.calls[c].op && s'.calls == s.calls[c := pc] && s'.hist == s.hist
    ensures HistoryMatches(s')
  {
  }

  /** A call that only moves on inside itself touches neither the history nor the order. */
  lemma InsideKeeps<Op, Data, Loc, Ret>(s: State<Op, Data, Loc, Ret>, s': State<Op, Data, Loc, Ret>,
                                        log: seq<Entry<Op, Ret>>, c: CallId, loc: Loc)
    requires HistoryMatches(s) && LogMatches(s, log)
    requires c in s.calls && (s.calls[c].Waiting? || s.calls[c].Inside?)
    requires s'.calls == s.calls[c := Inside(s.calls[c].op, loc)] && s'.hist == s.hist
    ensures HistoryMatches(s') && LogMatches(s', log)
  {
    MoveKeepsHistory(s, s', c, Inside(s.calls[c].op, loc));
  }

  lemma EffectKeepsOrder<Op, Data, Loc, Ret>(s: State<Op, Data, Loc, Ret>, log: seq<Entry<Op, Ret>>, e: Entry<Op, Ret>)
    requires HistoryMatches(s) && RealTime(s.hist, log)
    requires e.c in s.calls && (s.calls[e.c].Waiting? || s.calls[e.c].Inside?)
    ensures RealTime(s.hist, log + [e])
  {
    forall i, j | 0 <= i < j < |s.hist| && s.hist[i].Return? && s.hist[j].Invoke?
      ensures Before(log + [e], s.hist[i].c, s.hist[j].c)
    {
      assert Before(log, s.hist[i].c, s.hist[j].c);
      assert s.hist[i].c != e.c;
    }
  }

  /** A call that takes effect goes to the end of the order: every call that has returned is there
      already, so real time is respected. */
  lemma EffectKeeps<Op, Data, Loc, Ret>(s: State<Op, Data, Loc, Ret>, s': State<Op, Data, Loc, Ret>,
                                        log: seq<Entry<Op, Ret>>, e: Entry<Op, Ret>)
    requires HistoryMatches(s) && LogMatches(s, log)
    requires e.c in s.calls && (s.calls[e.c].Waiting? || s.calls[e.c].Inside?) && s.calls[e.c].op == e.op
    requires s'.calls == s.calls[e.c := Leaving(e.op, e.ret)] && s'.hist == s.hist
    ensures HistoryMatches(s') && LogMatches(s', log + [e])
  {
    var log' := log + [e];
    MoveKeepsHistory(s, s', e.c, Leaving(e.op, e.ret));
    EffectKeepsOrder(s, log, e);
    forall i | 0 <= i < |log|
      ensures log[i].c != e.c && log[i].c in s'.calls && s'.calls[log[i].c] == s.calls[log[i].c]
    {
    }
    forall c | c in s'.calls && (s'.calls[c].Leaving? || s'.calls[c].Returned?)
      ensures Logged(log', c)
    {
      if c == e.c {
        assert log'[|log|].c == c;
      } else {
        var i :| 0 <= i < |log| && log[i].c == c;
        assert log'[i].c == c;
      }
    }
  }

  /** The lock part of the invariant, step by step. */
  lemma LockKeeps<Op(!new), Data(!new), Loc(!new), Ret(!new)>(
    o: Object<Op, Data, Loc, Ret>, spec: Spec<Op, Data, Ret>, good: Data -> bool, mid: (Op, Loc, Data) -> bool,
    s: State<Op, Data, Loc, Ret>, d: Data, a: Action<Op>)
    requires Implements(o, spec, good, mid) && good(d)
    requires LockMatches(o, mid, s, d) && Enabled(o, s, a)
    ensures !a.Unlock? ==> LockMatches(o, mid, Next(o, s, a), d)
    ensures a.Unlock? ==> LockMatches(o, mid, Next(o, s, a), spec(s.calls[a.c].op, d).0)
    ensures a.Unlock? ==> Next(o, s, a).calls[a.c] == Leaving(s.calls[a.c].op, spec(s.calls[a.c].op, d).1)
    ensures a.Bypass? ==> spec(s.calls[a.c].op, d) == (d, o.early(s.calls[a.c].op).value)
  {
    var s' := Next(o, s, a);
    if a.Unlock? || a.Bypass? {
      var op := s.calls[a.c].op;
      assert Whole(o, op, d) == spec(op, d);
    }
  }

  /** Every step of every call keeps the invariant; the order grows by the call that takes effect, if any. */
  lemma Step<Op(!new), Data(!new), Loc(!new), Ret(!new)>(
    o: Object<Op, Data, Loc, Ret>, spec: Spec<Op, Data, Ret>, good: Data -> bool, mid: (Op, Loc, Data) -> bool,
    d0: Data, s: State<Op, Data, Loc, Ret>, log: seq<Entry<Op, Ret>>, a: Action<Op>)
    requires Implements(o, spec, good, mid)
    requires Inv(o, spec, good, mid, d0, s, log) && Enabled(o, s, a)
    ensures Inv(o, spec, good, mid, d0, Next(o, s, a), log + Effect(o, s, a))
  {
    var s' := Next(o, s, a);
    var d := Replay(spec, d0, log);
    LockKeeps(o, spec, good, mid, s, d, a);
    match a {
      case Begin(c, op) => BeginKeeps(s, s', log, c, op);
      case Lock(c) => InsideKeeps(s, s', log, c, s'.calls[c].loc);
      case Micro(c) => InsideKeeps(s, s', log, c, s'.calls[c].loc);
      case Finish(c) => FinishKeeps(s, s', log, c);
      case _ =>
        var e := Entry(a.c, s.calls[a.c].op, s'.calls[a.c].ret);
        EffectKeeps(s, s', log, e);
        assert Effect(o, s, a) == [e];
        assert (log + [e])[..|log|] == log;
    }
    if Effect(o, s, a) == [] {
      assert log + Effect(o, s, a) == log;
    }
  }

  lemma {:induction false} Explained<Op(!new), Data(!new), Loc(!new), Ret(!new)>(
    o: Object<Op, Data, Loc, Ret>, spec: Spec<Op, Data, Ret>, good: Data -> bool, mid: (Op, Loc, Data) -> bool,
    d0: Data, run: seq<Action<Op>>)
    requires Implements(o, spec, good, mid) && good(d0)
    requires After(o, d0, run).Some?
    ensures Inv(o, spec, good, mid, d0, After(o, d0, run).value, Order(o, d0, run))
    decreases |run|
  {
    if run != [] {
      var last := |run| - 1;
      Explained(o, spec, good, mid, d0, run[..last]);
      Step(o, spec, good, mid, d0, After(o, d0, run[..last]).value, Order(o, d0, run[..last]), run[last]);
    }
  }

  /** Every run of every instance is linearizable, and the order in which its calls take effect shows it; the order
      holds exactly the calls that have taken effect; whenever the lock is free the data are exactly
      those of the sequential order, and while it is held `mid` holds of the data and the holder. */
  lemma Linearizable<Op(!new), Data(!new), Loc(!new), Ret(!new)>(
    o: Object<Op, Data, Loc, Ret>, spec: Spec<Op, Data, Ret>, good: Data -> bool, mid: (Op, Loc, Data) -> bool,
    d0: Data, run: seq<Action<Op>>)
    requires Implements(o, spec, good, mid) && good(d0)
    requires After(o, d0, run).Some?
    ensures var s, log := After(o, d0, run).value, Order(o, d0, run);
            && Explains(spec, d0, s.hist, log)
            && LogMatches(s, log)
            && (s.owner.None? ==> s.data == Replay(spec, d0, log) && good(s.data))
            && (s.owner.Some? ==>
                  var c := s.owner.value;
                  c in s.calls && s.calls[c].Inside? && mid(s.calls[c].op, s.calls[c].loc, s.data))
  {
    Explained(o, spec, good, mid, d0, run);
  }

  // --- progress -----------------------------------------------------------------------------------------

  /** No deadlock: while some call has not returned, some call that has begun can go on. */
  lemma SomeCallGoesOn<Op(!new), Data(!new), Loc(!new), Ret(!new)>(
    o: Object<Op, Data, Loc, Ret>, spec: Spec<Op, Data, Ret>, good: Data -> bool, mid: (Op, Loc, Data) -> bool,
    d0: Data, run: seq<Action<Op>>, c: CallId)
    returns (a: Action<Op>)
    requires Implements(o, spec, good, mid) && good(d0)
    requires After(o, d0, run).Some?
    requires c in After(o, d0, run).value.calls && !After(o, d0, run).value.calls[c].Returned?
    ensures !a.Begin? && Enabled(o, After(o, d0, run).value, a)
  {
    Explained(o, spec, good, mid, d0, run);
    var s := After(o, d0, run).value;
    var k := if s.calls[c].Waiting? && o.early(s.calls[c].op).None? && s.owner.Some? then s.owner.value else c;
    match s.calls[k] {
      case Waiting(op) => a := if o.early(op).Some? then Bypass(k) else Lock(k);
      case Inside(op, loc) => a := if o.left(op, loc) > 0 then Micro(k) else Unlock(k);
      case Leaving(_, _) => a := Finish(k);
    }
  }

  /** The actions that a call can still take. */
  function Rest<Op, Data, Loc, Ret>(o: Object<Op, Data, Loc, Ret>, pc: Pc<Op, Loc, Ret>): nat {
    match pc
    case Waiting(op) => o.left(op, o.start(op)) + 3
    case Inside(op, loc) => o.left(op, loc) + 2
    case Leaving(_, _) => 1
    case Returned(_, _) => 0
  }

  function ActionsOf<Op>(run: seq<Action<Op>>, c: CallId): nat { Count(run, (a: Action<Op>) => a.c == c) }

  lemma StepUsesRest<Op(!new), Data(!new), Loc(!new), Ret>(
    o: Object<Op, Data, Loc, Ret>, s: State<Op, Data, Loc, Ret>, a: Action<Op>)
    requires Progresses(o) && Enabled(o, s, a)
    ensures var s' := Next(o, s, a);
            && a.c in s'.calls && s'.calls == s.calls[a.c := s'.calls[a.c]]
            && (a.Begin? ==> Rest(o, s'.calls[a.c]) == o.left(a.op, o.start(a.op)) + 3 && s'.calls[a.c].op == a.op)
            && (!a.Begin? ==>
                  Rest(o, s'.calls[a.c]) < Rest(o, s.calls[a.c]) && s'.calls[a.c].op == s.calls[a.c].op)
  {
  }

  /** No call takes more actions than its steps under the lock and four, whatever the others do. */
  lemma {:induction false} CallIsBounded<Op(!new), Data(!new), Loc(!new), Ret>(
    o: Object<Op, Data, Loc, Ret>, d0: Data, run: seq<Action<Op>>, c: CallId)
    requires Progresses(o) && After(o, d0, run).Some?
    ensures var s := After(o, d0, run).value;
            if c in s.calls then
              var op := s.calls[c].op;
              ActionsOf(run, c) + Rest(o, s.calls[c]) <= o.left(op, o.start(op)) + 4
            else ActionsOf(run, c) == 0
    decreases |run|
  {
    if run != [] {
      var init, a := run[..|run| - 1], run[|run| - 1];
      CallIsBounded(o, d0, init, c);
      StepUsesRest(o, After(o, d0, init).value, a);
    }
  }
}
