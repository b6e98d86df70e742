/** Exclusive open of the phantom devices: open takes the driver's mutex and, inside it, the device's mutex,
    for which the wait can be interrupted; release takes only the device's. Any number of files and
    devices. The VFS calls release once per successful open. */
module PhantomOpen {
  import opened Kernel

  type FileId = nat
  type DevId = nat

  datatype Pc =
    | WantDriver            // open: mutex_lock(&phantom_mutex)
    | WantDevice            // mutex_lock_interruptible(&dev->open_lock)
    | Broken                // interrupted: still holds the driver's mutex
    | Test                  // holds both: if (dev->opened)
    | BusyDevice            // refused: about to unlock the device's mutex
    | BusyDriver            // ... the driver's
    | Store(reg: nat)       // dev->opened++ between its load and its store
    | OkDevice              // opened is stored: about to unlock the device's mutex
    | OkDriver              // ... the driver's
    | Leaving(code: int)    // no lock held, about to return
    | Live                  // open returned 0
    | Failed(code: int)     // open returned an error
    | ReleaseWant           // release: mutex_lock(&dev->open_lock)
    | ReleaseHeld           // dev->opened = 0
    | ReleaseDone           // about to unlock
    | ReleaseLeaving
    | Closed

  datatype File = File(dev: DevId, pc: Pc)

  datatype State = State(driver: Option<FileId>, devices: map<DevId, FileId>, openCount: map<DevId, nat>,
                         files: seq<File>)

  datatype Action = Open(d: DevId) | Release(f: FileId) | Interrupt(f: FileId) | Step(f: FileId)

  const INIT: State := State(None, map[], map[], [])

  /** The field `opened` of a device; zero until somebody stores to it. */
  function Opened(s: State, d: DevId): nat { if d in s.openCount then s.openCount[d] else 0 }

  predicate Finished(pc: Pc) { pc.Live? || pc.Failed? || pc.Closed? }

  predicate Enabled(s: State, a: Action) {
    match a
    case Open(_) => true
    case Release(f) => f < |s.files| && s.files[f].pc.Live?
    case Interrupt(f) => f < |s.files| && s.files[f].pc.WantDevice?
    case Step(f) =>
      && f < |s.files|
      && !Finished(s.files[f].pc)
      && (s.files[f].pc.WantDriver? ==> s.driver.None?)
      && (s.files[f].pc.WantDevice? || s.files[f].pc.ReleaseWant? ==> s.files[f].dev !in s.devices)
  }

  function Goto(s: State, f: FileId, pc: Pc): State
    requires f < |s.files|
  {
    s.(files := s.files[f := s.files[f].(pc := pc)])
  }

  function Next(s: State, a: Action): State
    requires Enabled(s, a)
  {
    match a
    case Open(d) => s.(files := s.files + [File(d, WantDriver)])
    case Release(f) => Goto(s, f, ReleaseWant)
    case Interrupt(f) => Goto(s, f, Broken)
    case Step(f) =>
      var d := s.files[f].dev;
      match s.files[f].pc
      case WantDriver => Goto(s.(driver := Some(f)), f, WantDevice)
      case WantDevice => Goto(s.(devices := s.devices[d := f]), f, Test)
      case Broken => Goto(s.(driver := None), f, Leaving(-ERESTARTSYS))
      case Test => Goto(s, f, if Opened(s, d) != 0 then BusyDevice else Store(Opened(s, d)))
      case BusyDevice => Goto(s.(devices := s.devices - {d}), f, BusyDriver)
      case BusyDriver => Goto(s.(driver := None), f, Leaving(-EBUSY))
      case Store(reg) => Goto(s.(openCount := s.openCount[d := reg + 1]), f, OkDevice)
      case OkDevice => Goto(s.(devices := s.devices - {d}), f, OkDriver)
      case OkDriver => Goto(s.(driver := None), f, Leaving(0))
      case Leaving(code) => Goto(s, f, if code == 0 then Live else Failed(code))
      case ReleaseWant => Goto(s.(devices := s.devices[d := f]), f, ReleaseHeld)
      case ReleaseHeld => Goto(s.(openCount := s.openCount[d := 0]), f, ReleaseDone)
      case ReleaseDone => Goto(s.(devices := s.devices - {d}), f, ReleaseLeaving)
      case ReleaseLeaving => Goto(s, f, Closed)
      case _ => s
  }

  function After(run: seq<Action>): Option<State> {
    if run == [] then Some(INIT)
    else
      match After(run[..|run| - 1])
      case None => None
      case Some(s) => if Enabled(s, run[|run| - 1]) then Some(Next(s, run[|run| - 1])) else None
  }

  // --- the invariant ------------------------------------------------------------------------------

  predicate HasDriver(pc: Pc) {
    pc.WantDevice? || pc.Broken? || pc.Test? || pc.BusyDevice? || pc.BusyDriver? || pc.Store? || pc.OkDevice? ||
    pc.OkDriver?
  }

  predicate HasDevice(pc: Pc) {
    pc.Test? || pc.BusyDevice? || pc.Store? || pc.OkDevice? || pc.ReleaseHeld? || pc.ReleaseDone?
  }

  /** Between the store of a successful open and the store of its release. */
  predicate Using(pc: Pc) {
    pc.OkDevice? || pc.OkDriver? || pc == Leaving(0) || pc.Live? || pc.ReleaseWant? || pc.ReleaseHeld?
  }

  function Users(d: DevId): File -> bool { (f: File) => f.dev == d && Using(f.pc) }

  predicate FileOk(s: State, f: FileId)
    requires f < |s.files|
  {
    var File(d, pc) := s.files[f];
    && (HasDriver(pc) ==> s.driver == Some(f))
    && (HasDevice(pc) ==> d in s.devices && s.devices[d] == f)
    && (pc.Store? ==> pc.reg == 0 == Opened(s, d))
  }

  /** The holder of a device's mutex is a file of that device that is inside it. */
  predicate LockOk(s: State, d: DevId) {
    d in s.devices ==>
      var f := s.devices[d];
      f < |s.files| && s.files[f].dev == d && HasDevice(s.files[f].pc)
  }

  predicate DeviceOk(s: State, d: DevId) {
    LockOk(s, d) && Opened(s, d) == Count(s.files, Users(d)) <= 1
  }

  ghost predicate Inv(s: State) {
    && (forall f | 0 <= f < |s.files| :: FileOk(s, f))
    && (s.driver.Some? ==> s.driver.value < |s.files| && HasDriver(s.files[s.driver.value].pc))
    && (forall d: DevId :: DeviceOk(s, d))
  }

  lemma StepKeepsOthers(s: State, a: Action, f: FileId)
    requires Enabled(s, a) && f < |s.files| && FileOk(s, f)
    requires !a.Open? ==> a.f != f && FileOk(s, a.f)
    ensures FileOk(Next(s, a), f)
  {
  }

  lemma StepKeepsOwn(s: State, a: Action)
    requires !a.Open? && Enabled(s, a) && FileOk(s, a.f)
    ensures FileOk(Next(s, a), a.f)
  {
  }

  lemma StepKeepsFiles(s: State, a: Action, f: FileId)
    requires Inv(s) && Enabled(s, a) && f < |Next(s, a).files|
    ensures FileOk(Next(s, a), f)
  {
    if f < |s.files| {
      assert FileOk(s, f) && (!a.Open? ==> FileOk(s, a.f));
      if !a.Open? && a.f == f {
        StepKeepsOwn(s, a);
      } else {
        StepKeepsOthers(s, a, f);
      }
    }
  }

  function Share(f: File): int { if Using(f.pc) then 1 else 0 }

  /** A step changes `opened` of its own device by what it changes of its own file's share, and no other. */
  lemma StepMovesShare(s: State, a: Action, d: DevId)
    requires !a.Open? && Enabled(s, a) && FileOk(s, a.f)
    requires DeviceOk(s, d)
    requires Using(s.files[a.f].pc) && s.files[a.f].dev == d ==> Opened(s, d) == 1
    ensures Opened(Next(s, a), d) - Opened(s, d) ==
            if d == s.files[a.f].dev then Share(Next(s, a).files[a.f]) - Share(s.files[a.f]) else 0
    ensures Opened(Next(s, a), d) <= 1
  {
  }

  lemma StepMovesOne(s: State, a: Action)
    requires !a.Open? && Enabled(s, a)
    ensures var x := Next(s, a).files[a.f];
            Next(s, a).files == s.files[a.f := x] && x.dev == s.files[a.f].dev
  {
  }

  lemma StepKeepsLock(s: State, a: Action, d: DevId)
    requires Enabled(s, a) && LockOk(s, d)
    requires !a.Open? ==> FileOk(s, a.f)
    ensures LockOk(Next(s, a), d)
  {
  }

  lemma StepKeepsCount(s: State, a: Action, d: DevId)
    requires Enabled(s, a) && DeviceOk(s, d)
    requires !a.Open? ==> FileOk(s, a.f)
    ensures Opened(Next(s, a), d) == Count(Next(s, a).files, Users(d)) <= 1
  {
    if a.Open? {
      CountAppend(s.files, File(a.d, WantDriver), Users(d));
    } else {
      if Users(d)(s.files[a.f]) {
        CountPair(s.files, a.f, a.f, Users(d));
      }
      StepMovesShare(s, a, d);
      StepMovesOne(s, a);
      CountUpdate(s.files, a.f, Next(s, a).files[a.f], Users(d));
    }
  }

  lemma StepKeepsInv(s: State, a: Action)
    requires Inv(s) && Enabled(s, a)
    ensures Inv(Next(s, a))
  {
    forall f | 0 <= f < |Next(s, a).files| ensures FileOk(Next(s, a), f) {
      StepKeepsFiles(s, a, f);
    }
    assert !a.Open? ==> FileOk(s, a.f);
    forall d: DevId ensures DeviceOk(Next(s, a), d) {
      assert DeviceOk(s, d);
      StepKeepsLock(s, a, d);
      StepKeepsCount(s, a, d);
    }
  }

  lemma {:induction false} RunKeepsInv(run: seq<Action>)
    requires After(run).Some?
    ensures Inv(After(run).value)
    decreases |run|
  {
    if run != [] {
      RunKeepsInv(run[..|run| - 1]);
      StepKeepsInv(After(run[..|run| - 1]).value, run[|run| - 1]);
    }
  }

  // --- exclusive open -------------------------------------------------------------------------------

  /** For every device in every interleaving, `opened` is 0 or 1 and counts its users, and two files never
      use it at once. */
  lemma ExclusiveOpen(run: seq<Action>, d: DevId)
    requires After(run).Some?
    ensures var s := After(run).value;
            && Opened(s, d) == Count(s.files, Users(d)) <= 1
            && (forall f, g | 0 <= f < g < |s.files| :: !(Users(d)(s.files[f]) && Users(d)(s.files[g])))
  {
    RunKeepsInv(run);
    var s := After(run).value;
    assert DeviceOk(s, d);
    forall f, g | 0 <= f < g < |s.files| && Users(d)(s.files[f]) && Users(d)(s.files[g])
      ensures false
    {
      CountPair(s.files, f, g, Users(d));
    }
  }

  predicate Releasing(pc: Pc) {
    pc.ReleaseWant? || pc.ReleaseHeld? || pc.ReleaseDone? || pc.ReleaseLeaving? || pc.Closed?
  }

  /** The opens of a device that have returned 0, and the releases of it that have begun, so far. */
  function Succeeded(d: DevId): File -> bool { (f: File) => f.dev == d && (f.pc.Live? || Releasing(f.pc)) }
  function Released(d: DevId): File -> bool { (f: File) => f.dev == d && Releasing(f.pc) }
  function InHand(d: DevId): File -> bool { (f: File) => f.dev == d && f.pc.Live? }

  lemma SucceededMinusReleased(run: seq<Action>, d: DevId)
    requires After(run).Some?
    ensures var files := After(run).value.files;
            0 <= Count(files, Succeeded(d)) - Count(files, Released(d)) <= 1
  {
    var files := After(run).value.files;
    ExclusiveOpen(run, d);
    CountSplits(files, Succeeded(d), Released(d), InHand(d));
    CountMonotone(files, InHand(d), Users(d));
  }

  /** In any part of any run, at most one more open of a device returns 0 than releases of it begin; in
      particular of racing opens with no release between them at most one succeeds. */
  lemma AtMostOneWinner(before: seq<Action>, window: seq<Action>, d: DevId)
    requires After(before).Some? && After(before + window).Some?
    ensures var s, s' := After(before).value, After(before + window).value;
            Count(s'.files, Succeeded(d)) - Count(s.files, Succeeded(d)) <=
            1 + Count(s'.files, Released(d)) - Count(s.files, Released(d))
  {
    SucceededMinusReleased(before, d);
    SucceededMinusReleased(before + window, d);
  }

  /** An open is refused as busy exactly when, at its test, another file is using the device. */
  lemma BusyIffInUse(run: seq<Action>, f: FileId)
    requires After(run).Some?
    requires f < |After(run).value.files| && After(run).value.files[f].pc.Test?
    ensures var s := After(run).value;
            Next(s, Step(f)).files[f].pc.BusyDevice? <==>
            exists g | 0 <= g < |s.files| :: g != f && Users(s.files[f].dev)(s.files[g])
  {
    RunKeepsInv(run);
    var s := After(run).value;
    var users := Users(s.files[f].dev);
    assert DeviceOk(s, s.files[f].dev);
    if Opened(s, s.files[f].dev) != 0 {
      var g := CountWitness(s.files, users);
      assert g != f && users(s.files[g]);
    }
    if g :| 0 <= g < |s.files| && g != f && users(s.files[g]) {
      CountPair(s.files, g, g, users);
    }
  }

  // --- progress ---------------------------------------------------------------------------------------

  /** No deadlock: while some call is unfinished, some unfinished call can take a step, without any new
      call and without a signal. */
  lemma DeadlockFree(run: seq<Action>, f: FileId) returns (g: FileId)
    requires After(run).Some?
    requires f < |After(run).value.files| && !Finished(After(run).value.files[f].pc)
    ensures var s := After(run).value;
            g < |s.files| && !Finished(s.files[g].pc) && Enabled(s, Step(g))
  {
    RunKeepsInv(run);
    var s := After(run).value;
    g := f;
    if s.files[g].pc.WantDriver? && s.driver.Some? {
      g := s.driver.value;
    }
    assert DeviceOk(s, s.files[g].dev);
    if (s.files[g].pc.WantDevice? || s.files[g].pc.ReleaseWant?) && s.files[g].dev in s.devices {
      g := s.devices[s.files[g].dev];
    }
  }

  /** No call returns, or is about to return, with a lock in its hands. */
  lemma ReturnsWithoutLocks(run: seq<Action>, f: FileId)
    requires After(run).Some? && f < |After(run).value.files|
    requires var pc := After(run).value.files[f].pc; pc.Leaving? || pc.ReleaseLeaving? || Finished(pc)
    ensures var s := After(run).value;
            s.driver != Some(f) && forall d | d in s.devices :: s.devices[d] != f
  {
    RunKeepsInv(run);
    var s := After(run).value;
    forall d | d in s.devices ensures s.devices[d] != f {
      assert DeviceOk(s, d);
    }
  }

  /** Steps a call can still take. */
  function Rank(pc: Pc): nat {
    match pc
    case WantDriver => 7
    case WantDevice => 6
    case Test => 5
    case Store(_) => 4
    case OkDevice => 3
    case OkDriver => 2
    case BusyDevice => 3
    case BusyDriver => 2
    case Broken => 2
    case Leaving(_) => 1
    case ReleaseWant => 4
    case ReleaseHeld => 3
    case ReleaseDone => 2
    case ReleaseLeaving => 1
    case _ => 0
  }

  function Work(files: seq<File>): nat { Total(files, (f: File) => Rank(f.pc)) }

  function Opens(run: seq<Action>): nat { Count(run, (a: Action) => a.Open?) }
  function Releases(run: seq<Action>): nat { Count(run, (a: Action) => a.Release?) }

  lemma StepLowersRank(s: State, a: Action)
    requires !a.Open? && Enabled(s, a)
    ensures var r, r' := Rank(s.files[a.f].pc), Rank(Next(s, a).files[a.f].pc);
            if a.Release? then r' == r + 4 else r' < r
  {
  }

  /** A call brings all its steps with it; every step uses up at least one. */
  lemma StepUsesWork(s: State, a: Action)
    requires Enabled(s, a)
    ensures var w, w' := Work(s.files), Work(Next(s, a).files);
            if a.Open? then w' == w + 7 else if a.Release? then w' == w + 4 else w' < w
  {
    if a.Open? {
      TotalAppend(s.files, File(a.d, WantDriver), (f: File) => Rank(f.pc));
    } else {
      StepMovesOne(s, a);
      StepLowersRank(s, a);
      TotalUpdate(s.files, a.f, Next(s, a).files[a.f], (f: File) => Rank(f.pc));
    }
  }

  /** Every run of finitely many calls is finite: an open takes at most seven steps and a release at most
      four, whatever the other calls do. */
  lemma {:induction false} RunsAreBounded(run: seq<Action>)
    requires After(run).Some?
    ensures |run| + Work(After(run).value.files) <= 8 * Opens(run) + 5 * Releases(run)
    decreases |run|
  {
    if run != [] {
      RunsAreBounded(run[..|run| - 1]);
      StepUsesWork(After(run[..|run| - 1]).value, run[|run| - 1]);
    }
  }

  // --- one call run alone ---------------------------------------------------------------------------

  /** The call of one file run on, with nobody else taking a step and no signal, until it has none left. */
  function Alone(s: State, f: FileId): State
    decreases if f < |s.files| then Rank(s.files[f].pc) else 0
  {
    if Enabled(s, Step(f)) then
      StepLowersRank(s, Step(f));
      Alone(Next(s, Step(f)), f)
    else s
  }

  lemma Advance(s: State, f: FileId, t: State)
    requires Enabled(s, Step(f)) && Next(s, Step(f)) == t
    ensures Alone(s, f) == Alone(t, f)
  {
  }

  lemma Ended(s: State, f: FileId)
    requires !Enabled(s, Step(f))
    ensures Alone(s, f) == s
  {
  }

  /** It is one of the interleavings. */
  lemma {:induction false} AloneIsARun(before: seq<Action>, f: FileId) returns (run: seq<Action>)
    requires After(before).Some?
    ensures before <= run && After(run) == Some(Alone(After(before).value, f))
    ensures forall i | |before| <= i < |run| :: run[i] == Step(f)
    decreases var files := After(before).value.files; if f < |files| then Rank(files[f].pc) else 0
  {
    var s := After(before).value;
    run := before;
    if Enabled(s, Step(f)) {
      run := before + [Step(f)];
      assert run[..|run| - 1] == before;
      StepLowersRank(s, Step(f));
      run := AloneIsARun(run, f);
    }
  }

  /** Does an open that nobody disturbs succeed? */
  function OpenCode(s: State, d: DevId): int { if Opened(s, d) == 0 then 0 else -EBUSY }

  function OpenEnd(code: int): Pc { if code == 0 then Live else Failed(code) }

  /** The end of open, from where it gives back the driver's mutex. */
  lemma LeaveAlone(s: State, f: FileId, pc: Pc, code: int)
    requires f < |s.files| && s.driver.None?
    requires (pc.OkDriver? && code == 0) || (pc.BusyDriver? && code == -EBUSY) || (pc.Broken? && code == -ERESTARTSYS)
    ensures Alone(Goto(s.(driver := Some(f)), f, pc), f) == Goto(s, f, OpenEnd(code))
  {
    Advance(Goto(s.(driver := Some(f)), f, pc), f, Goto(s, f, Leaving(code)));
    Advance(Goto(s, f, Leaving(code)), f, Goto(s, f, OpenEnd(code)));
    Ended(Goto(s, f, OpenEnd(code)), f);
  }

  /** The middle of open, for a device in use ... */
  lemma RefuseAlone(s: State, f: FileId)
    requires f < |s.files| && s.files[f].dev !in s.devices && Opened(s, s.files[f].dev) != 0
    ensures Alone(Goto(s, f, WantDevice), f) == Alone(Goto(s, f, BusyDriver), f)
  {
    var s1 := s.(devices := s.devices[s.files[f].dev := f]);
    assert s1.devices - {s.files[f].dev} == s.devices;
    Advance(Goto(s, f, WantDevice), f, Goto(s1, f, Test));
    Advance(Goto(s1, f, Test), f, Goto(s1, f, BusyDevice));
    Advance(Goto(s1, f, BusyDevice), f, Goto(s, f, BusyDriver));
  }

  lemma StoreAlone(s: State, f: FileId)
    requires f < |s.files| && s.files[f].dev !in s.devices
    ensures Alone(Goto(s.(devices := s.devices[s.files[f].dev := f]), f, Store(0)), f) ==
            Alone(Goto(s.(openCount := s.openCount[s.files[f].dev := 1]), f, OkDriver), f)
  {
    var d := s.files[f].dev;
    var s1, s2 := s.(devices := s.devices[d := f]), s.(openCount := s.openCount[d := 1]);
    assert s1.devices - {d} == s.devices;
    Advance(Goto(s1, f, Store(0)), f, Goto(s1.(openCount := s2.openCount), f, OkDevice));
    Advance(Goto(s1.(openCount := s2.openCount), f, OkDevice), f, Goto(s2, f, OkDriver));
  }

  /** ... and for one that is not. */
  lemma SetAlone(s: State, f: FileId)
    requires f < |s.files| && s.files[f].dev !in s.devices && Opened(s, s.files[f].dev) == 0
    ensures Alone(Goto(s, f, WantDevice), f) ==
            Alone(Goto(s.(openCount := s.openCount[s.files[f].dev := 1]), f, OkDriver), f)
  {
    var s1 := s.(devices := s.devices[s.files[f].dev := f]);
    Advance(Goto(s, f, WantDevice), f, Goto(s1, f, Test));
    Advance(Goto(s1, f, Test), f, Goto(s1, f, Store(0)));
    StoreAlone(s, f);
  }

  /** With both mutexes free an open runs to its end: the device is opened if it was not, nothing else is changed. */
  lemma OpenAlone(s: State, f: FileId)
    requires f < |s.files| && s.files[f].pc.WantDriver? && s.driver.None? && s.files[f].dev !in s.devices
    ensures var d := s.files[f].dev;
            var code := OpenCode(s, d);
            Alone(s, f) == Goto(if code == 0 then s.(openCount := s.openCount[d := 1]) else s, f, OpenEnd(code))
  {
    var d, code := s.files[f].dev, OpenCode(s, s.files[f].dev);
    var s1 := s.(driver := Some(f));
    Advance(s, f, Goto(s1, f, WantDevice));
    if code == 0 {
      SetAlone(s1, f);
      LeaveAlone(s.(openCount := s.openCount[d := 1]), f, OkDriver, 0);
    } else {
      RefuseAlone(s1, f);
      LeaveAlone(s, f, BusyDriver, -EBUSY);
    }
  }

  /** A wait for the device's mutex that a signal ends: nothing is changed. */
  lemma InterruptedAlone(s: State, f: FileId)
    requires f < |s.files| && s.files[f].pc.WantDriver? && s.driver.None?
    ensures Alone(Next(Next(s, Step(f)), Action.Interrupt(f)), f) == Goto(s, f, Failed(-ERESTARTSYS))
  {
    var s1 := s.(driver := Some(f));
    assert Next(Next(s, Step(f)), Action.Interrupt(f)) == Goto(s1, f, Broken);
    LeaveAlone(s, f, Broken, -ERESTARTSYS);
  }

  lemma UnlockAlone(s: State, f: FileId)
    requires f < |s.files| && s.files[f].dev !in s.devices
    ensures Alone(Goto(s.(devices := s.devices[s.files[f].dev := f]), f, ReleaseDone), f) == Goto(s, f, Closed)
  {
    var s1 := s.(devices := s.devices[s.files[f].dev := f]);
    assert s1.devices - {s.files[f].dev} == s.devices;
    Advance(Goto(s1, f, ReleaseDone), f, Goto(s, f, ReleaseLeaving));
    Advance(Goto(s, f, ReleaseLeaving), f, Goto(s, f, Closed));
    Ended(Goto(s, f, Closed), f);
  }

  /** With the device's mutex free a release runs to its end: the device is closed, nothing else is changed. */
  lemma ReleaseAlone(s: State, f: FileId)
    requires f < |s.files| && s.files[f].pc.ReleaseWant? && s.files[f].dev !in s.devices
    ensures Alone(s, f) == Goto(s.(openCount := s.openCount[s.files[f].dev := 0]), f, Closed)
  {
    var d := s.files[f].dev;
    var s1, s2 := s.(devices := s.devices[d := f]), s.(openCount := s.openCount[d := 0]);
    Advance(s, f, Goto(s1, f, ReleaseHeld));
    Advance(Goto(s1, f, ReleaseHeld), f, Goto(s1.(openCount := s2.openCount), f, ReleaseDone));
    UnlockAlone(s2, f);
  }

  /** Open and release, on the driver's mutex and the fields of one device. */
  class Device {
    var phantomMutex: bool
    var openLock: bool
    var openCount: nat         // the field `opened`

    constructor ()
      ensures openCount == 0 && !phantomMutex && !openLock
    {
      phantomMutex, openLock, openCount := false, false, 0;
    }

    /** The machine's state is `s` as far as this device goes, and file `f` of it is at `pc`. */
    ghost predicate In(s: State, f: FileId, pc: Pc)
      reads this
    {
      && f < |s.files| && s.files[f].pc == pc
      && (openLock <==> s.files[f].dev in s.devices)
      && Opened(s, s.files[f].dev) == openCount
    }

    /** `interrupted` is whether a signal ends the wait for the device's mutex. Every way out gives back
        both locks; only success changes the device. From whatever state of the machine, the call ends where
        the machine ends. */
    method PhantomOpen(interrupted: bool, ghost s: State, ghost f: FileId) returns (code: int)
      requires !phantomMutex && !openLock
      requires s.driver.None? && In(s, f, WantDriver)
      modifies this
      ensures !phantomMutex && !openLock
      ensures code == 0 <==> !interrupted && old(openCount) == 0
      ensures code != 0 ==> code == if interrupted then -ERESTARTSYS else -EBUSY
      ensures openCount == if code == 0 then 1 else old(openCount)
      ensures var t := if interrupted then Next(Next(s, Step(f)), Action.Interrupt(f)) else s;
              In(Alone(t, f), f, OpenEnd(code)) && Alone(t, f).driver.None?
    {
      if interrupted {
        InterruptedAlone(s, f);
      } else {
        OpenAlone(s, f);
      }
      phantomMutex := true;
      if interrupted {
        phantomMutex := false;
        return -ERESTARTSYS;
      }
      openLock := true;
      if openCount != 0 {
        openLock := false;
        phantomMutex := false;
        return -EBUSY;
      }
      openCount := openCount + 1;
      openLock := false;
      phantomMutex := false;
      code := 0;
    }

    /** Release needs nothing but the device's own mutex. */
    method PhantomRelease(ghost s: State, ghost f: FileId) returns (code: int)
      requires !openLock && In(s, f, ReleaseWant)
      modifies this`openLock, this`openCount
      ensures !openLock && openCount == 0 && code == 0
      ensures In(Alone(s, f), f, Closed) && Alone(s, f).driver == s.driver
    {
      ReleaseAlone(s, f);
      openLock := true;
      openCount := 0;
      openLock := false;
      code := 0;
    }
  }
}
