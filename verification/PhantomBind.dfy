/** Binding of the phantom driver: the table of minor numbers, the ladder of acquisitions in probe with its
    unwinding, and remove. Every acquisition may fail; a log records what was taken and given back.
    The bus runs probe and remove one at a time. */
module PhantomBind {
  import opened Kernel

  type DevId = nat

  const MAX_MINORS: int := 8
  const MINORS_PER_MAJOR: int := 0x10_0000

  function MkDev(major: nat, minor: nat): nat { major * MINORS_PER_MAJOR + minor }
  function Minor(t: nat): nat { t % MINORS_PER_MAJOR }

  lemma MinorOfMkDev(major: nat, minor: nat)
    requires minor < MAX_MINORS
    ensures Minor(MkDev(major, minor)) == minor && MkDev(major, minor) == major * 0x10_0000 + minor
  {
  }

  /** What the driver holds for a PCI device `d`, for a minor number, for a device number `t` and for itself. */
  datatype Resource =
    | Enabled(d: DevId)
    | Slot(m: nat)
    | Regions(d: DevId)
    | Memory(d: DevId)
    | ConfMap(d: DevId)
    | InputMap(d: DevId)
    | Irq(d: DevId)
    | CharDev(t: nat)
    | Node(t: nat)
    | Class
    | MajorRange
    | PciDriver

  datatype Event = Take(r: Resource) | Give(r: Resource)

  /** How often `r` is held after the events of a log. */
  function Held(log: seq<Event>, r: Resource): int {
    if log == [] then 0
    else
      var e := log[|log| - 1];
      Held(log[..|log| - 1], r) + (if e == Take(r) then 1 else if e == Give(r) then -1 else 0)
  }

  lemma HeldAppend(log: seq<Event>, e: Event, r: Resource)
    ensures Held(log + [e], r) == Held(log, r) + (if e == Take(r) then 1 else if e == Give(r) then -1 else 0)
  {
    assert (log + [e])[..|log|] == log;
  }

  lemma {:induction false} HeldConcat(a: seq<Event>, b: seq<Event>, r: Resource)
    ensures Held(a + b, r) == Held(a, r) + Held(b, r)
    decreases |b|
  {
    if b == [] {
      assert a + b == a;
    } else {
      HeldConcat(a, b[..|b| - 1], r);
      assert (a + b)[..|a + b| - 1] == a + b[..|b| - 1];
    }
  }

  /** How the kernel answers during one probe: error codes, zero for success, and which allocations work. */
  datatype Answers = Answers(enable: int, regions: int, memory: bool, conf: bool, input: bool, irq: int,
                             cdev: int, node: bool)

  // --- ladders --------------------------------------------------------------------------------------

  /** The events of a plan on the way up its first `k` resources and down again to number `j`. */
  function Trace(plan: seq<Resource>, j: nat, k: nat): seq<Event>
    requires j <= k <= |plan|
    decreases k, k - j
  {
    if j < k then Trace(plan, j + 1, k) + [Give(plan[j])]
    else if k > 0 then Trace(plan, k - 1, k - 1) + [Take(plan[k - 1])]
    else []
  }

  /** Down to the ground everything that was taken is given back, each once and last first. */
  lemma {:induction false} TraceIsMirror(plan: seq<Resource>, j: nat, k: nat)
    requires j <= k <= |plan|
    ensures var t := Trace(plan, j, k);
            && |t| == k + (k - j)
            && (forall i | 0 <= i < k :: t[i] == Take(plan[i]))
            && (forall i | j <= i < k :: t[2 * k - 1 - i] == Give(plan[i]))
    decreases k, k - j
  {
    if j < k {
      TraceIsMirror(plan, j + 1, k);
    } else if k > 0 {
      TraceIsMirror(plan, k - 1, k - 1);
    }
  }

  /** The way down alone, from number `k` to number `j`. */
  function Down(plan: seq<Resource>, j: nat, k: nat): seq<Event>
    requires j <= k <= |plan|
    decreases k - j
  {
    if j == k then [] else Down(plan, j + 1, k) + [Give(plan[j])]
  }

  lemma {:induction false} TraceSplits(plan: seq<Resource>, j: nat, k: nat)
    requires j <= k <= |plan|
    ensures Trace(plan, j, k) == Trace(plan, k, k) + Down(plan, j, k)
    decreases k - j
  {
    if j < k {
      TraceSplits(plan, j + 1, k);
    }
  }

  /** How often `r` is among the first `j` resources of a plan. */
  function Times(plan: seq<Resource>, j: nat, r: Resource): nat
    requires j <= |plan|
  {
    if j == 0 then 0 else Times(plan, j - 1, r) + (if plan[j - 1] == r then 1 else 0)
  }

  /** On the ladder exactly the first `j` resources of the plan are held. */
  lemma {:induction false} HeldOnLadder(plan: seq<Resource>, j: nat, k: nat, r: Resource)
    requires j <= k <= |plan|
    ensures Held(Trace(plan, j, k), r) == Times(plan, j, r)
    decreases k, k - j
  {
    if j < k {
      HeldOnLadder(plan, j + 1, k, r);
      HeldAppend(Trace(plan, j + 1, k), Give(plan[j]), r);
    } else if k > 0 {
      HeldOnLadder(plan, k - 1, k - 1, r);
      HeldAppend(Trace(plan, k - 1, k - 1), Take(plan[k - 1]), r);
    }
  }

  lemma HeldOnWayDown(plan: seq<Resource>, j: nat, k: nat, r: Resource)
    requires j <= k <= |plan|
    ensures Held(Down(plan, j, k), r) == Times(plan, j, r) - Times(plan, k, r)
  {
    TraceSplits(plan, j, k);
    HeldConcat(Trace(plan, k, k), Down(plan, j, k), r);
    HeldOnLadder(plan, j, k, r);
    HeldOnLadder(plan, k, k, r);
  }

  /** Nothing is given back that is not held at that moment; in particular nothing twice. */
  predicate Sound(log: seq<Event>) {
    log == [] ||
    (var before, e := log[..|log| - 1], log[|log| - 1];
     Sound(before) && (e.Give? ==> Held(before, e.r) > 0))
  }

  lemma SoundStep(log: seq<Event>, t: seq<Event>, e: Event)
    requires Sound(log + t) && (e.Give? ==> Held(log, e.r) + Held(t, e.r) > 0)
    ensures Sound(log + (t + [e]))
  {
    var all := log + (t + [e]);
    assert all[..|all| - 1] == log + t;
    if e.Give? { HeldConcat(log, t, e.r); }
  }

  lemma {:induction false} TraceIsSound(log: seq<Event>, plan: seq<Resource>, j: nat, k: nat)
    requires j <= k <= |plan| && Sound(log) && forall r :: Held(log, r) >= 0
    ensures Sound(log + Trace(plan, j, k))
    decreases k, k - j
  {
    if j < k {
      TraceIsSound(log, plan, j + 1, k);
      HeldOnLadder(plan, j + 1, k, plan[j]);
      SoundStep(log, Trace(plan, j + 1, k), Give(plan[j]));
    } else if k > 0 {
      TraceIsSound(log, plan, k - 1, k - 1);
      SoundStep(log, Trace(plan, k - 1, k - 1), Take(plan[k - 1]));
    } else {
      assert log + [] == log;
    }
  }

  lemma {:induction false} WayDownIsSound(log: seq<Event>, plan: seq<Resource>, j: nat, k: nat)
    requires j <= k <= |plan| && Sound(log) && forall r :: Held(log, r) >= Times(plan, k, r)
    ensures Sound(log + Down(plan, j, k))
    decreases k - j
  {
    if j < k {
      WayDownIsSound(log, plan, j + 1, k);
      HeldOnWayDown(plan, j + 1, k, plan[j]);
      SoundStep(log, Down(plan, j + 1, k), Give(plan[j]));
    } else {
      assert log + [] == log;
    }
  }

  // --- probe and remove, as steps on the driver's state -----------------------------------------------

  /** The least free minor; the size of the table when it is full. */
  function FirstFree(slots: seq<int>): (m: nat)
    ensures m <= |slots|
    ensures forall i | 0 <= i < m :: slots[i] != 0
    ensures m < |slots| ==> slots[m] == 0
  {
    if slots == [] || slots[0] == 0 then 0 else 1 + FirstFree(slots[1..])
  }

  const STEPS: nat := 8

  /** What step `i` of probe acquires ... */
  function Acquired(major: nat, d: DevId, m: nat, i: nat): Resource {
    match i
    case 0 => Enabled(d)
    case 1 => Slot(m)
    case 2 => Regions(d)
    case 3 => Memory(d)
    case 4 => ConfMap(d)
    case 5 => InputMap(d)
    case 6 => Irq(d)
    case _ => CharDev(MkDev(major, m))
  }

  function Plan(major: nat, d: DevId, m: nat): seq<Resource> {
    seq(STEPS, i requires 0 <= i < STEPS => Acquired(major, d, m, i))
  }

  /** ... and how it ends: zero, or the error that probe returns for it. */
  function Code(full: bool, a: Answers, i: nat): int {
    match i
    case 0 => a.enable
    case 1 => if full then -EIO else 0
    case 2 => a.regions
    case 3 => if a.memory then 0 else -ENOMEM
    case 4 => if a.conf then 0 else -ENOMEM
    case 5 => if a.input then 0 else -ENOMEM
    case 6 => a.irq
    case _ => a.cdev
  }

  /** The first step from number `i` on that fails; STEPS when none does. */
  function FirstFailure(full: bool, a: Answers, i: nat): (k: nat)
    requires i <= STEPS
    ensures i <= k <= STEPS
    ensures forall j | i <= j < k :: Code(full, a, j) == 0
    ensures k < STEPS ==> Code(full, a, k) != 0
    decreases STEPS - i
  {
    if i == STEPS || Code(full, a, i) != 0 then i else FirstFailure(full, a, i + 1)
  }

  /** The first `k` steps work. */
  predicate Works(full: bool, a: Answers, k: nat) {
    && (k > 0 ==> a.enable == 0) && (k > 1 ==> !full) && (k > 2 ==> a.regions == 0) && (k > 3 ==> a.memory)
    && (k > 4 ==> a.conf) && (k > 5 ==> a.input) && (k > 6 ==> a.irq == 0) && (k > 7 ==> a.cdev == 0)
  }

  lemma FirstFailureIs(full: bool, a: Answers, k: nat)
    requires k <= STEPS && Works(full, a, k) && (k < STEPS ==> Code(full, a, k) != 0)
    ensures FirstFailure(full, a, 0) == k
  {
  }

  lemma PlanIs(major: nat, d: DevId, m: nat)
    ensures var p := Plan(major, d, m);
            && p[0] == Enabled(d) && p[1] == Slot(m) && p[2] == Regions(d) && p[3] == Memory(d)
            && p[4] == ConfMap(d) && p[5] == InputMap(d) && p[6] == Irq(d) && p[7] == CharDev(MkDev(major, m))
  {
  }

  lemma WayDownIs(p: seq<Resource>)
    requires |p| == STEPS
    ensures Down(p, 0, STEPS) ==
            [Give(p[7]), Give(p[6]), Give(p[5]), Give(p[4]), Give(p[3]), Give(p[2]), Give(p[1]), Give(p[0])]
  {
    assert Down(p, 6, STEPS) == [Give(p[7]), Give(p[6])];
    assert Down(p, 4, STEPS) == [Give(p[7]), Give(p[6]), Give(p[5]), Give(p[4])];
    assert Down(p, 2, STEPS) == [Give(p[7]), Give(p[6]), Give(p[5]), Give(p[4]), Give(p[3]), Give(p[2])];
  }

  function IfNode(node: bool, e: Event): seq<Event> { if node then [e] else [] }

  /** A device that is bound: its device number, and whether its node could be created. */
  datatype Binding = Binding(t: nat, node: bool)

  datatype State = State(slots: seq<int>, bound: map<DevId, Binding>, log: seq<Event>)

  /** Probe: the first failure decides the result, and then what was acquired is given back and nothing has
      changed; without one the device is bound to the least free minor. */
  function Probe(s: State, major: nat, d: DevId, a: Answers): (State, int)
    requires |s.slots| == MAX_MINORS
  {
    var m := FirstFree(s.slots);
    var full := m == MAX_MINORS;
    var plan := Plan(major, d, m);
    var k := FirstFailure(full, a, 0);
    if k < STEPS then (s.(log := s.log + Trace(plan, 0, k)), Code(full, a, k))
    else
      assert Code(full, a, 1) == 0;
      var t := MkDev(major, m);
      var events := Trace(plan, STEPS, STEPS) + IfNode(a.node, Take(Node(t)));
      (State(s.slots[m := 1], s.bound[d := Binding(t, a.node)], s.log + events), 0)
  }

  predicate IsBound(s: State, major: nat, d: DevId) {
    d in s.bound && Minor(s.bound[d].t) < |s.slots| && s.bound[d].t == MkDev(major, Minor(s.bound[d].t))
  }

  function RemoveTrace(major: nat, d: DevId, b: Binding): seq<Event> {
    IfNode(b.node, Give(Node(b.t))) + Down(Plan(major, d, Minor(b.t)), 0, STEPS)
  }

  /** Remove: the node if there is one, then down the whole ladder; the minor is that of the device number. */
  function Remove(s: State, major: nat, d: DevId): State
    requires IsBound(s, major, d)
  {
    var b := s.bound[d];
    State(s.slots[Minor(b.t) := 0], s.bound - {d}, s.log + RemoveTrace(major, d, b))
  }

  // --- probe and remove, answer by answer --------------------------------------------------------------

  /** The code that probe returns: that of the first call that fails. */
  function ProbeCode(full: bool, a: Answers): int {
    if a.enable != 0 then a.enable
    else if full then -EIO
    else if a.regions != 0 then a.regions
    else if !a.memory || !a.conf || !a.input then -ENOMEM
    else if a.irq != 0 then a.irq
    else a.cdev
  }

  /** Does probe get hold of the resource? Only if its own call succeeds and all before it have. */
  predicate Gets(major: nat, d: DevId, m: nat, full: bool, a: Answers, r: Resource) {
    var enabled := a.enable == 0;
    var slot := enabled && !full;
    var regions := slot && a.regions == 0;
    var memory := regions && a.memory;
    var conf := memory && a.conf;
    var input := conf && a.input;
    var irq := input && a.irq == 0;
    var cdev := irq && a.cdev == 0;
    match r
    case Enabled(x) => x == d && enabled
    case Slot(n) => n == m && slot
    case Regions(x) => x == d && regions
    case Memory(x) => x == d && memory
    case ConfMap(x) => x == d && conf
    case InputMap(x) => x == d && input
    case Irq(x) => x == d && irq
    case CharDev(t) => t == MkDev(major, m) && cdev
    case Node(t) => t == MkDev(major, m) && cdev && a.node
    case _ => false
  }

  /** The number of calls that succeed before one fails. */
  function Successes(full: bool, a: Answers): nat {
    if a.enable != 0 then 0
    else if full then 1
    else if a.regions != 0 then 2
    else if !a.memory then 3
    else if !a.conf then 4
    else if !a.input then 5
    else if a.irq != 0 then 6
    else if a.cdev != 0 then 7
    else 8
  }

  lemma FailureIsFirst(full: bool, a: Answers)
    ensures var k := FirstFailure(full, a, 0);
            k == Successes(full, a) && ProbeCode(full, a) == if k < STEPS then Code(full, a, k) else 0
  {
    FirstFailureIs(full, a, Successes(full, a));
  }

  lemma {:induction false} TakesOfTrace(plan: seq<Resource>, j: nat, k: nat, r: Resource)
    requires j <= k <= |plan|
    ensures Take(r) in Trace(plan, j, k) <==> exists i | 0 <= i < k :: plan[i] == r
    decreases k, k - j
  {
    if j < k {
      TakesOfTrace(plan, j + 1, k, r);
    } else if k > 0 {
      TakesOfTrace(plan, k - 1, k - 1, r);
      assert Take(r) == Take(plan[k - 1]) <==> plan[k - 1] == r;
    }
  }

  lemma OnPlan(major: nat, d: DevId, m: nat, full: bool, a: Answers, r: Resource)
    requires !r.Node?
    ensures (exists i | 0 <= i < Successes(full, a) :: Plan(major, d, m)[i] == r) <==> Gets(major, d, m, full, a, r)
  {
    var p := Plan(major, d, m);
    PlanIs(major, d, m);
    var k := Successes(full, a);
    assert (exists i | 0 <= i < k :: p[i] == r) <==>
           (k > 0 && p[0] == r) || (k > 1 && p[1] == r) || (k > 2 && p[2] == r) || (k > 3 && p[3] == r) ||
           (k > 4 && p[4] == r) || (k > 5 && p[5] == r) || (k > 6 && p[6] == r) || (k > 7 && p[7] == r);
  }

  lemma NoNodeOnPlan(major: nat, d: DevId, m: nat, t: nat)
    ensures forall i | 0 <= i < STEPS :: Plan(major, d, m)[i] != Node(t)
  {
  }

  /** What probe adds to the log. */
  function ProbeEvents(s: State, major: nat, d: DevId, a: Answers): seq<Event>
    requires |s.slots| == MAX_MINORS
  {
    var m := FirstFree(s.slots);
    var k := FirstFailure(m == MAX_MINORS, a, 0);
    if k < STEPS then Trace(Plan(major, d, m), 0, k)
    else Trace(Plan(major, d, m), STEPS, STEPS) + IfNode(a.node, Take(Node(MkDev(major, m))))
  }

  predicate TableIsFull(slots: seq<int>) { forall i | 0 <= i < |slots| :: slots[i] != 0 }

  lemma ProbeAnswers(s: State, major: nat, d: DevId, a: Answers)
    requires |s.slots| == MAX_MINORS
    ensures TableIsFull(s.slots) <==> FirstFree(s.slots) == MAX_MINORS
    ensures Probe(s, major, d, a).1 == ProbeCode(TableIsFull(s.slots), a)
  {
    FailureIsFirst(FirstFree(s.slots) == MAX_MINORS, a);
  }

  /** Probe answers with the code of the first call that fails, and takes a resource exactly when its own call
      and all before it succeed. */
  lemma ProbeMeans(s: State, major: nat, d: DevId, a: Answers, r: Resource)
    requires |s.slots| == MAX_MINORS
    ensures var (s', retval) := Probe(s, major, d, a);
            var m := FirstFree(s.slots);
            var full := TableIsFull(s.slots);
            && retval == ProbeCode(full, a)
            && s'.log == s.log + ProbeEvents(s, major, d, a)
            && (Take(r) in ProbeEvents(s, major, d, a) <==> Gets(major, d, m, full, a, r))
  {
    var m := FirstFree(s.slots);
    var full := m == MAX_MINORS;
    ProbeAnswers(s, major, d, a);
    FailureIsFirst(full, a);
    TakesOfTrace(Plan(major, d, m), if Successes(full, a) < STEPS then 0 else STEPS, Successes(full, a), r);
    if r.Node? {
      NoNodeOnPlan(major, d, m, r.t);
    } else {
      OnPlan(major, d, m, full, a, r);
    }
  }

  /** The driver, with the goto ladder of probe as nested blocks. */
  class Driver {
    const major: nat
    const slots: array<int>
    var bound: map<DevId, Binding>
    var log: seq<Event>

    constructor (major: nat)
      ensures fresh(slots) && slots.Length == MAX_MINORS && this.major == major
      ensures Abs() == State(seq(MAX_MINORS, _ => 0), map[], [])
    {
      this.major := major;
      slots := new int[MAX_MINORS](_ => 0);
      bound, log := map[], [];
      new;
      assert slots[..] == seq(MAX_MINORS, _ => 0);
    }

    function Abs(): State
      reads this, slots
    {
      State(slots[..], bound, log)
    }

    method PhantomGetFree() returns (i: nat)
      requires slots.Length == MAX_MINORS
      ensures i == FirstFree(slots[..])
    {
      i := 0;
      while i < MAX_MINORS
        invariant i <= MAX_MINORS
        invariant forall k | 0 <= k < i :: slots[k] != 0
      {
        if slots[i] == 0 {
          break;
        }
        i := i + 1;
      }
    }

    /** The body of probe; `k` acquisitions succeed before one fails. */
    method ProbeLadder(d: DevId, a: Answers, ghost plan: seq<Resource>, ghost m: nat)
      returns (retval: int, trace: seq<Event>, ghost k: nat)
      requires slots.Length == MAX_MINORS && m == FirstFree(slots[..])
      requires |plan| == STEPS && plan[0] == Enabled(d) && plan[1] == Slot(m) && plan[2] == Regions(d)
      requires plan[3] == Memory(d) && plan[4] == ConfMap(d) && plan[5] == InputMap(d) && plan[6] == Irq(d)
      requires plan[7] == CharDev(MkDev(major, m))
      modifies this`bound, slots
      ensures k <= STEPS && Works(m == MAX_MINORS, a, k)
      ensures k < STEPS ==>
                && retval == Code(m == MAX_MINORS, a, k) != 0 && trace == Trace(plan, 0, k)
                && slots[..] == old(slots[..]) && bound == old(bound)
      ensures k == STEPS ==>
                && retval == 0
                && slots[..] == old(slots[..])[m := 1]
                && bound == old(bound)[d := Binding(MkDev(major, m), a.node)]
                && trace == Trace(plan, STEPS, STEPS) + IfNode(a.node, Take(Node(MkDev(major, m))))
    {
      ghost var was, full := slots[..], m == MAX_MINORS;
      trace, k := [], 0;
      label Err: {
        retval := a.enable;
        if retval != 0 {
          break Err;
        }
        trace, k := trace + [Take(Enabled(d))], 1;
        label ErrDis: {
          var minor := PhantomGetFree();
          if minor == MAX_MINORS {
            retval := -EIO;
            break ErrDis;
          }
          label ErrNull: {
            slots[minor] := 1;
            trace, k := trace + [Take(Slot(minor))], 2;
            retval := a.regions;
            if retval != 0 {
              break ErrNull;
            }
            trace, k := trace + [Take(Regions(d))], 3;
            label ErrReg: {
              retval := -ENOMEM;
              if !a.memory {
                break ErrReg;
              }
              trace, k := trace + [Take(Memory(d))], 4;
              label ErrFr: {
                if !a.conf {
                  break ErrFr;
                }
                trace, k := trace + [Take(ConfMap(d))], 5;
                label ErrUnmc: {
                  if !a.input {
                    break ErrUnmc;
                  }
                  trace, k := trace + [Take(InputMap(d))], 6;
                  label ErrUnmi: {
                    retval := a.irq;
                    if retval != 0 {
                      break ErrUnmi;
                    }
                    trace, k := trace + [Take(Irq(d))], 7;
                    label ErrIrq: {
                      retval := a.cdev;
                      if retval != 0 {
                        break ErrIrq;
                      }
                      trace, k := trace + [Take(CharDev(MkDev(major, minor)))], 8;
                      assert trace == Trace(plan, 8, 8);
                      if a.node {
                        trace := trace + [Take(Node(MkDev(major, minor)))];
                      }
                      bound := bound[d := Binding(MkDev(major, minor), a.node)];
                      retval := 0;
                      return;
                    }
                    trace := trace + [Give(Irq(d))];
                    assert k > 6 && trace == Trace(plan, 6, k);
                  }
                  trace := trace + [Give(InputMap(d))];
                  assert k > 5 && trace == Trace(plan, 5, k);
                }
                trace := trace + [Give(ConfMap(d))];
                assert k > 4 && trace == Trace(plan, 4, k);
              }
              trace := trace + [Give(Memory(d))];
              assert k > 3 && trace == Trace(plan, 3, k);
            }
            trace := trace + [Give(Regions(d))];
            assert k > 2 && trace == Trace(plan, 2, k);
          }
          assert slots[..] == was[minor := 1];
          slots[minor] := 0;
          assert slots[..] == was;
          trace := trace + [Give(Slot(minor))];
          assert k > 1 && trace == Trace(plan, 1, k);
        }
        trace := trace + [Give(Enabled(d))];
        assert k > 0 && trace == Trace(plan, 0, k);
      }
    }

    method PhantomProbe(d: DevId, a: Answers) returns (retval: int)
      requires slots.Length == MAX_MINORS
      modifies this, slots
      ensures (Abs(), retval) == Probe(old(Abs()), major, d, a)
      ensures retval == ProbeCode(TableIsFull(old(slots[..])), a)
    {
      ProbeAnswers(Abs(), major, d, a);
      ghost var m, k := FirstFree(slots[..]), 0;
      var trace: seq<Event>;
      PlanIs(major, d, m);
      retval, trace, k := ProbeLadder(d, a, Plan(major, d, m), m);
      FirstFailureIs(m == MAX_MINORS, a, k);
      log := log + trace;
    }

    method PhantomRemove(d: DevId)
      requires IsBound(Abs(), major, d)
      modifies this, slots
      ensures Abs() == Remove(old(Abs()), major, d)
      ensures var b := old(bound[d]);
              var m := Minor(b.t);
              log == old(log) + ((if b.node then [Give(Node(b.t))] else []) +
                [Give(CharDev(b.t)), Give(Irq(d)), Give(InputMap(d)), Give(ConfMap(d)), Give(Memory(d)),
                 Give(Regions(d)), Give(Slot(m)), Give(Enabled(d))])
    {
      var t := bound[d].t;
      var minor := Minor(t);
      ghost var plan := Plan(major, d, minor);
      PlanIs(major, d, minor);
      var node := if bound[d].node then [Give(Node(t))] else [];
      var down := [Give(CharDev(t))];
      down := down + [Give(Irq(d))];
      down := down + [Give(InputMap(d))];
      down := down + [Give(ConfMap(d))];
      down := down + [Give(Memory(d))];
      down := down + [Give(Regions(d))];
      slots[minor] := 0;
      down := down + [Give(Slot(minor))];
      down := down + [Give(Enabled(d))];
      WayDownIs(plan);
      assert down == Down(plan, 0, STEPS);
      bound := bound - {d};
      log := log + (node + down);
    }
  }
}
