/** The single-writer gate of the write device: open and release of any number of files, in read and write
    mode, with the test, the increment and the decrement of `writers` taken apart into loads and stores
    under `writers_lock`. The VFS calls release once per successful open. */
module WriterGate {
  import opened Kernel

  type FileId = nat

  datatype Pc =
    | OpenWant
    | OpenHeld
    | OpenLoaded(busy: int)        // dev_unavailable, loaded under the lock
    | OpenReg(reg: int)            // writers++ between its load and its store
    | OpenDone(busy: int)          // about to unlock
    | OpenLeft(busy: int)          // unlocked, about to return
    | Live                         // open returned 0
    | Refused                      // open returned -EBUSY
    | ReleaseWant
    | ReleaseHeld
    | ReleaseReg(reg: int)
    | ReleaseDone
    | ReleaseLeft
    | Closed

  datatype File = File(write: bool, pc: Pc)

  datatype State = State(writers: int, lock: Option<FileId>, files: seq<File>)

  datatype Action = Open(write: bool) | Release(f: FileId) | Step(f: FileId)

  const INIT: State := State(0, None, [])

  predicate Enabled(s: State, a: Action) {
    match a
    case Open(_) => true
    case Release(f) => f < |s.files| && s.files[f].pc == Live
    case Step(f) =>
      && f < |s.files|
      && match s.files[f].pc {
           case OpenWant => s.lock.None?
           case ReleaseWant => s.lock.None?
           case Live => false
           case Refused => false
           case Closed => false
           case _ => true
         }
  }

  function Goto(s: State, f: FileId, pc: Pc): State
    requires f < |s.files|
  {
    s.(files := s.files[f := s.files[f].(pc := pc)])
  }

  function Next(s: State, a: Action): State
    requires Enabled(s, a)
  {
    match a
    case Open(write) => s.(files := s.files + [File(write, if write then OpenWant else OpenLeft(0))])
    case Release(f) => Goto(s, f, if s.files[f].write then ReleaseWant else ReleaseLeft)
    case Step(f) =>
      match s.files[f].pc
      case OpenWant => Goto(s.(lock := Some(f)), f, OpenHeld)
      case OpenHeld => Goto(s, f, OpenLoaded(s.writers))
      case OpenLoaded(busy) => Goto(s, f, if busy == 0 then OpenReg(s.writers) else OpenDone(busy))
      case OpenReg(reg) => Goto(s.(writers := reg + 1), f, OpenDone(0))
      case OpenDone(busy) => Goto(s.(lock := None), f, OpenLeft(busy))
      case OpenLeft(busy) => Goto(s, f, if busy != 0 then Refused else Live)
      case ReleaseWant => Goto(s.(lock := Some(f)), f, ReleaseHeld)
      case ReleaseHeld => Goto(s, f, ReleaseReg(s.writers))
      case ReleaseReg(reg) => Goto(s.(writers := reg - 1), f, ReleaseDone)
      case ReleaseDone => Goto(s.(lock := None), f, ReleaseLeft)
      case ReleaseLeft => Goto(s, f, Closed)
      case _ => s
  }

  function After(run: seq<Action>): Option<State> {
    if run == [] then Some(INIT)
    else
      match After(run[..|run| - 1])
      case None => None
      case Some(s) => if Enabled(s, run[|run| - 1]) then Some(Next(s, run[|run| - 1])) else None
  }

  predicate InLock(pc: Pc) {
    pc.OpenHeld? || pc.OpenLoaded? || pc.OpenReg? || pc.OpenDone? || pc.ReleaseHeld? || pc.ReleaseReg? ||
    pc.ReleaseDone?
  }

  /** A write-mode file between the store of its open and the store of its release. */
  predicate Writing(f: File) {
    f.write && (f.pc == OpenDone(0) || f.pc == OpenLeft(0) || f.pc.Live? ||
                f.pc.ReleaseWant? || f.pc.ReleaseHeld? || f.pc.ReleaseReg?)
  }

  /** What a file contributes to `writers`. */
  function Share(f: File): int { if Writing(f) then 1 else 0 }

  /** What a file's private variables know about `writers`. */
  predicate Knows(f: File, writers: int) {
    && (f.pc.OpenLoaded? ==> f.pc.busy == writers)
    && (f.pc.OpenReg? ==> f.pc.reg == 0 == writers)
    && (f.pc.ReleaseReg? ==> f.pc.reg == writers)
    && (!f.write ==> f.pc == OpenLeft(0) || f.pc.Live? || f.pc.ReleaseLeft? || f.pc.Closed?)
  }

  /** Whoever is inside holds the lock, and knows the current value. */
  predicate FileOk(s: State, f: FileId)
    requires f < |s.files|
  {
    (InLock(s.files[f].pc) ==> s.lock == Some(f)) && Knows(s.files[f], s.writers)
  }

  ghost predicate Inv(s: State) {
    && (forall f | 0 <= f < |s.files| :: FileOk(s, f))
    && (s.lock.Some? ==> s.lock.value < |s.files| && InLock(s.files[s.lock.value].pc))
    && s.writers == Count(s.files, Writing) <= 1
  }

  lemma StepKeepsFiles(s: State, a: Action, f: FileId)
    requires Inv(s) && Enabled(s, a) && f < |Next(s, a).files|
    ensures FileOk(Next(s, a), f)
  {
    if f < |s.files| {
      assert FileOk(s, f);
      if !a.Open? && a.f != f {
        assert FileOk(s, a.f);
      }
    }
  }

  /** Each step changes `writers` by what it changes of its own file's share. */
  lemma StepMovesShare(s: State, a: Action)
    requires !a.Open? && Enabled(s, a) && FileOk(s, a.f) && s.writers <= 1
    ensures Next(s, a).writers - s.writers == Share(Next(s, a).files[a.f]) - Share(s.files[a.f])
    ensures Next(s, a).writers <= 1
  {
  }

  lemma StepKeepsCount(s: State, a: Action)
    requires Inv(s) && Enabled(s, a)
    ensures Next(s, a).writers == Count(Next(s, a).files, Writing) <= 1
  {
    if a.Open? {
      CountAppend(s.files, File(a.write, if a.write then OpenWant else OpenLeft(0)), Writing);
    } else {
      assert FileOk(s, a.f);
      StepMovesShare(s, a);
      CountUpdate(s.files, a.f, Next(s, a).files[a.f], Writing);
    }
  }

  lemma StepKeepsInv(s: State, a: Action)
    requires Inv(s) && Enabled(s, a)
    ensures Inv(Next(s, a))
  {
    StepKeepsCount(s, a);
    forall f | 0 <= f < |Next(s, a).files|
      ensures FileOk(Next(s, a), f)
    {
      StepKeepsFiles(s, a, f);
    }
    if !a.Open? {
      assert FileOk(s, a.f);
    }
  }

  lemma {:induction false} RunKeepsInv(run: seq<Action>)
    requires After(run).Some?
    ensures Inv(After(run).value)
    decreases |run|
  {
    if run != [] {
      RunKeepsInv(run[..|run| - 1]);
      StepKeepsInv(After(run[..|run| - 1]).value, run[|run| - 1]);
    }
  }

  /** In every interleaving `writers` is 0 or 1 and counts the write-mode files, and no two of them are
      in use at once. */
  lemma SingleWriter(run: seq<Action>)
    requires After(run).Some?
    ensures var s := After(run).value;
            && 0 <= s.writers <= 1
            && s.writers == Count(s.files, Writing)
            && (forall f, g | 0 <= f < g < |s.files| :: !(Writing(s.files[f]) && Writing(s.files[g])))
  {
    RunKeepsInv(run);
    var s := After(run).value;
    forall f, g | 0 <= f < g < |s.files| && Writing(s.files[f]) && Writing(s.files[g])
      ensures false
    {
      CountPair(s.files, f, g, Writing);
    }
  }

  /** An open is on its way to -EBUSY exactly when, at its load, some other file is writing. */
  lemma RefusedIffAnotherWrites(run: seq<Action>, f: FileId)
    requires After(run).Some?
    requires f < |After(run).value.files| && After(run).value.files[f].pc.OpenLoaded?
    ensures var s := After(run).value;
            Next(s, Step(f)).files[f].pc.OpenDone? <==>
            exists g | 0 <= g < |s.files| :: g != f && Writing(s.files[g])
  {
    RunKeepsInv(run);
    var s := After(run).value;
    assert FileOk(s, f);
    if s.writers != 0 {
      var g := CountWitness(s.files, Writing);
      assert g != f && Writing(s.files[g]);
    }
    if g :| 0 <= g < |s.files| && g != f && Writing(s.files[g]) {
      CountPair(s.files, g, g, Writing);
    }
  }

  /** A refused open and a file in read mode leave no trace: `writers` changes only with the share of the
      file that moves, and neither of the two ever has a share. */
  lemma OnlyWritersLeaveATrace(run: seq<Action>, a: Action)
    requires After(run).Some? && Enabled(After(run).value, a) && !a.Open?
    ensures var s := After(run).value;
            var s' := Next(s, a);
            && s'.writers - s.writers == Share(s'.files[a.f]) - Share(s.files[a.f])
            && (!s.files[a.f].write || s'.files[a.f].pc.Refused? ==> s'.writers == s.writers)
            && (s'.files[a.f].pc.Refused? ==> Share(s.files[a.f]) == 0)
  {
    RunKeepsInv(run);
    assert FileOk(After(run).value, a.f);
    StepMovesShare(After(run).value, a);
  }

  /** Steps a call still takes. */
  function Rank(pc: Pc): nat {
    match pc
    case OpenWant => 6
    case OpenHeld => 5
    case OpenLoaded(_) => 4
    case OpenReg(_) => 3
    case OpenDone(_) => 2
    case OpenLeft(_) => 1
    case ReleaseWant => 5
    case ReleaseHeld => 4
    case ReleaseReg(_) => 3
    case ReleaseDone => 2
    case ReleaseLeft => 1
    case _ => 0
  }

  lemma StepLowersRank(s: State, f: FileId)
    requires Enabled(s, Step(f))
    ensures f < |Next(s, Step(f)).files| && Rank(Next(s, Step(f)).files[f].pc) < Rank(s.files[f].pc)
  {
  }

  // --- progress ---------------------------------------------------------------------------------------

  predicate Finished(pc: Pc) { pc.Live? || pc.Refused? || pc.Closed? }

  /** No deadlock: while some call is unfinished, some unfinished call can take a step, without any new call. */
  lemma DeadlockFree(run: seq<Action>, f: FileId) returns (g: FileId)
    requires After(run).Some? && f < |After(run).value.files| && !Finished(After(run).value.files[f].pc)
    ensures var s := After(run).value;
            g < |s.files| && !Finished(s.files[g].pc) && Enabled(s, Step(g))
  {
    RunKeepsInv(run);
    var s := After(run).value;
    g := f;
    if (s.files[f].pc.OpenWant? || s.files[f].pc.ReleaseWant?) && s.lock.Some? {
      g := s.lock.value;
    }
  }

  function Work(files: seq<File>): nat { Total(files, (f: File) => Rank(f.pc)) }

  /** A call brings all its steps with it; every step uses up at least one. */
  lemma StepUsesWork(s: State, a: Action)
    requires Enabled(s, a)
    ensures var w, w' := Work(s.files), Work(Next(s, a).files);
            if a.Open? then w' <= w + 6 else if a.Release? then w' <= w + 5 else w' < w
  {
    if a.Open? {
      TotalAppend(s.files, File(a.write, if a.write then OpenWant else OpenLeft(0)), (f: File) => Rank(f.pc));
    } else {
      var x := Next(s, a).files[a.f];
      assert Next(s, a).files == s.files[a.f := x];
      TotalUpdate(s.files, a.f, x, (f: File) => Rank(f.pc));
      if a.Step? {
        StepLowersRank(s, a.f);
      }
    }
  }

  function Opens(run: seq<Action>): nat { Count(run, (a: Action) => a.Open?) }
  function Releases(run: seq<Action>): nat { Count(run, (a: Action) => a.Release?) }

  /** Every run of finitely many calls is finite: at most seven actions for an open and six for a release, whatever
      the other calls do. */
  lemma {:induction false} RunsAreBounded(run: seq<Action>)
    requires After(run).Some?
    ensures |run| + Work(After(run).value.files) <= 7 * Opens(run) + 6 * Releases(run)
    decreases |run|
  {
    if run != [] {
      RunsAreBounded(run[..|run| - 1]);
      StepUsesWork(After(run[..|run| - 1]).value, run[|run| - 1]);
    }
  }

  // --- one call run alone ---------------------------------------------------------------------------

  /** The call of one file run on, with nobody else taking a step, until it has none left. */
  function Alone(s: State, f: FileId): State
    decreases if f < |s.files| then Rank(s.files[f].pc) else 0
  {
    if Enabled(s, Step(f)) then
      StepLowersRank(s, f);
      Alone(Next(s, Step(f)), f)
    else s
  }

  lemma Advance(s: State, f: FileId)
    requires Enabled(s, Step(f))
    ensures Alone(s, f) == Alone(Next(s, Step(f)), f)
  {
  }

  lemma Ended(s: State, f: FileId)
    requires !Enabled(s, Step(f))
    ensures Alone(s, f) == s
  {
  }

  /** Of two changes of one file the second counts. */
  lemma LastChangeCounts(files: seq<File>, f: FileId)
    requires f < |files|
    ensures forall x: File, y: File {:trigger files[f := x][f := y]} :: files[f := x][f := y] == files[f := y]
  {
  }

  /** It is one of the interleavings. */
  lemma {:induction false} AloneIsARun(before: seq<Action>, f: FileId) returns (run: seq<Action>)
    requires After(before).Some?
    ensures before <= run && After(run) == Some(Alone(After(before).value, f))
    ensures forall i | |before| <= i < |run| :: run[i] == Step(f)
    decreases var files := After(before).value.files; if f < |files| then Rank(files[f].pc) else 0
  {
    var s := After(before).value;
    run := before;
    if Enabled(s, Step(f)) {
      run := before + [Step(f)];
      assert run[..|run| - 1] == before;
      StepLowersRank(s, f);
      run := AloneIsARun(run, f);
    }
  }

  /** Open and release, on the global variable and its lock. Each statement is a step of the machine. */
  class Gate {
    var writers: int
    var locked: bool

    constructor ()
      ensures writers == 0 && !locked
      ensures State(writers, None, []) == INIT
    {
      writers, locked := 0, false;
    }

    /** The state of the machine when file `f` is at `pc` and the other files are those of `s`. */
    ghost function Abs(s: State, f: FileId, pc: Pc): State
      requires f < |s.files|
      reads this
    {
      State(writers, if locked then Some(f) else None, s.files[f := s.files[f].(pc := pc)])
    }

    /** The part of a write-mode open under the lock. */
    method Admit(ghost s: State, ghost f: FileId) returns (unavailable: int)
      requires 0 <= writers <= 1 && !locked && f < |s.files|
      modifies this
      ensures unavailable == old(writers) && writers == 1 && !locked
      ensures Alone(Abs(s, f, OpenLeft(unavailable)), f) == Alone(old(Abs(s, f, OpenWant)), f)
    {
      LastChangeCounts(s.files, f);
      Advance(Abs(s, f, OpenWant), f);
      locked := true;
      Advance(Abs(s, f, OpenHeld), f);
      unavailable := writers;
      Advance(Abs(s, f, OpenLoaded(unavailable)), f);
      if unavailable == 0 {
        Advance(Abs(s, f, OpenReg(writers)), f);
        writers := writers + 1;
      }
      Advance(Abs(s, f, OpenDone(unavailable)), f);
      locked := false;
    }

    /** From any state the gate can be in, a write-mode open is admitted exactly when nobody writes; it goes the way
        of the machine. */
    method MyWriteOpen(write: bool, ghost s: State, ghost f: FileId) returns (code: int)
      requires 0 <= writers <= 1 && !locked
      requires f < |s.files| && s.files[f].write == write
      modifies this
      ensures Abs(s, f, if code == 0 then Live else Refused) ==
              Alone(old(Abs(s, f, if write then OpenWant else OpenLeft(0))), f)
      ensures code == 0 <==> !write || old(writers) == 0
      ensures code != 0 ==> code == -EBUSY
      ensures writers == (if code == 0 && write then 1 else old(writers)) && !locked
    {
      LastChangeCounts(s.files, f);
      if write {
        var unavailable := Admit(s, f);
        if unavailable != 0 {
          Advance(Abs(s, f, OpenLeft(unavailable)), f);
          Ended(Abs(s, f, Refused), f);
          return -EBUSY;
        }
      }
      Advance(Abs(s, f, OpenLeft(0)), f);
      Ended(Abs(s, f, Live), f);
      code := 0;
    }

    method MyWriteRelease(write: bool, ghost s: State, ghost f: FileId) returns (code: int)
      requires !locked && (write ==> writers == 1)
      requires f < |s.files| && s.files[f].write == write
      modifies this
      ensures Abs(s, f, Closed) == Alone(old(Abs(s, f, if write then ReleaseWant else ReleaseLeft)), f)
      ensures writers == (if write then 0 else old(writers)) && !locked && code == 0
    {
      LastChangeCounts(s.files, f);
      if write {
        Advance(Abs(s, f, ReleaseWant), f);
        locked := true;
        Advance(Abs(s, f, ReleaseHeld), f);
        Advance(Abs(s, f, ReleaseReg(writers)), f);
        writers := writers - 1;
        Advance(Abs(s, f, ReleaseDone), f);
        locked := false;
      }
      Advance(Abs(s, f, ReleaseLeft), f);
      Ended(Abs(s, f, Closed), f);
      code := 0;
    }
  }
}
