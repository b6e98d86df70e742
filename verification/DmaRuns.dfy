/** How far runs of the DMA machine go: how much work engine and CPU have, that it can always be finished, and exactly
    which card lets the driver's promises hold. */
module DmaRuns {
  import opened Kernel
  import opened DmaCard

  // --- the work of a probe ------------------------------------------------------------------------------

  predicate IsPoll(at: int) { at == POLL1 || at == POLL2 }

  /** An action that brings probe on: of the engine, or a statement that does not just look at a busy card again. */
  predicate Works(s: State, a: Action) {
    a.MoveByte? || a.Complete? || (a.Statement? && !(IsPoll(s.at) && Busy(s.engine.cmd)))
  }

  function If(b: bool, n: nat): nat { if b then n else 0 }

  /** Ten bytes and the end, for each transfer not started and for what is left of one that is busy. */
  function EngineWork(s: State): int {
    If(s.at <= START1, N + 1) + If(s.at <= START2, N + 1) + If(s.at <= START3, N + 1) +
    (if Busy(s.engine.cmd) then N + 1 - s.engine.moved else 0)
  }

  /** The statements left, and for each polling loop one look at a card that is done. */
  function CpuWork(s: State): int {
    if s.at >= RUNNING then 0
    else
      RUNNING - s.at + If(s.at < POLL1 || (s.at == POLL1 && Busy(s.cmdVar)), 1) +
      If(s.at < POLL2 || (s.at == POLL2 && Busy(s.cmdVar)), 1)
  }

  function Work(s: State): int { EngineWork(s) + CpuWork(s) }

  lemma WorkIsNatural(s: State, phys: nat)
    requires DataOk(s, phys)
    ensures Work(s) >= 0
  {
  }

  lemma StatementWorks(s: State, phys: nat, ok: bool)
    requires DataOk(s, phys) && 0 <= s.at < RUNNING
    ensures var t := RunStatement(s, phys, ok);
            if Works(s, Statement(ok)) then Work(t) < Work(s) else Work(t) == Work(s) && t.at == s.at
  {
    Commands();
  }

  lemma EngineWorks(s: State, phys: nat, a: Action)
    requires DataOk(s, phys) && Enabled(s, a) && (a.MoveByte? || a.Complete?)
    ensures Work(Next(s, phys, a)) < Work(s) && Next(s, phys, a).at == s.at
  {
    Commands();
    if a.MoveByte? {
      MoveIs(s, phys);
    } else {
      CompleteKeepsData(s, phys);
    }
  }

  /** Nobody makes work: timer, handler and tasklet leave it as it is. */
  lemma OthersLeaveWork(s: State, phys: nat, a: Action)
    requires Inv(s, phys) && Enabled(s, a) && !a.Statement? && !a.MoveByte? && !a.Complete?
    ensures Work(Next(s, phys, a)) == Work(s)
  {
    if a.StepHandler? {
      if s.handler.WriteCmd? {
        AcknowledgeIs(s, phys);
      } else {
        HandlerSparesEngine(s);
      }
    }
  }

  lemma StepWorks(s: State, phys: nat, a: Action)
    requires Inv(s, phys) && Enabled(s, a)
    ensures Work(Next(s, phys, a)) + If(Works(s, a), 1) <= Work(s)
  {
    match a {
      case Statement(ok) => StatementWorks(s, phys, ok);
      case MoveByte => EngineWorks(s, phys, a);
      case Complete => EngineWorks(s, phys, a);
      case _ => OthersLeaveWork(s, phys, a);
    }
  }

  /** How many actions of a run worked. */
  function Worked(s0: State, phys: nat, run: seq<Action>): nat {
    if run == [] then 0
    else
      var before := After(s0, phys, run[..|run| - 1]);
      Worked(s0, phys, run[..|run| - 1]) + If(before.Some? && Works(before.value, run[|run| - 1]), 1)
  }

  /** In every interleaving engine and CPU do at most 54 actions of work: 19 statements, two looks at a card that is
      done, and three times ten bytes and an end. WorkIsBoundedIff says of which cards that holds. */
  lemma {:induction false} WorkIsBounded(s0: State, phys: nat, run: seq<Action>)
    requires Before(s0, phys) && s0.raised != ALONE && After(s0, phys, run).Some?
    ensures Worked(s0, phys, run) + Work(After(s0, phys, run).value) <= 54
    ensures Work(After(s0, phys, run).value) >= 0
    decreases |run|
  {
    RunKeepsInv(s0, phys, run);
    WorkIsNatural(After(s0, phys, run).value, phys);
    if run != [] {
      var init, a := run[..|run| - 1], run[|run| - 1];
      WorkIsBounded(s0, phys, init);
      RunKeepsInv(s0, phys, init);
      var s := After(s0, phys, init).value;
      StepWorks(s, phys, a);
    }
  }

  // --- probe can always be finished -----------------------------------------------------------------------

  lemma AfterStep(s0: State, phys: nat, run: seq<Action>, a: Action)
    requires After(s0, phys, run).Some? && Enabled(After(s0, phys, run).value, a)
    ensures After(s0, phys, run + [a]) == Some(Next(After(s0, phys, run).value, phys, a))
  {
    AfterLast(s0, phys, run, a);
  }

  /** What engine or CPU do next when they are at it. */
  function Onward(s: State): Action {
    if IsPoll(s.at) && Busy(s.engine.cmd) then (if s.engine.moved < s.engine.count then MoveByte else Complete)
    else Statement(true)
  }

  lemma OnwardWorks(s: State, phys: nat)
    requires DataOk(s, phys) && s.at < RUNNING
    ensures Enabled(s, Onward(s)) && Works(s, Onward(s))
    ensures var t := Next(s, phys, Onward(s));
            && DataOk(t, phys) && SameInterrupts(s, t)
            && (t.at == s.at || t.at == s.at + 1) && Work(t) < Work(s)
  {
    var a := Onward(s);
    if a.Statement? {
      StatementKeepsData(s, phys, true);
      StatementLeavesInterrupts(s, phys, true);
      StatementKeepsAllThere(s, phys, true);
      StatementWorks(s, phys, true);
    } else if a.MoveByte? {
      MoveKeepsData(s, phys);
      MoveIs(s, phys);
      EngineWorks(s, phys, a);
    } else {
      CompleteKeepsData(s, phys);
      EngineWorks(s, phys, a);
    }
  }

  /** From every state with sound data engine and CPU alone, whatever the others are at, bring probe to any later
      statement, and to its end. */
  lemma {:induction false} ProbeComesTo(s0: State, phys: nat, before: seq<Action>, goal: int) returns (run: seq<Action>)
    requires After(s0, phys, before).Some? && DataOk(After(s0, phys, before).value, phys)
    requires After(s0, phys, before).value.at <= goal <= RUNNING
    ensures before <= run && After(s0, phys, run).Some?
    ensures forall i | |before| <= i < |run| :: run[i] == MoveByte || run[i] == Complete || run[i] == Statement(true)
    ensures var s, t := After(s0, phys, before).value, After(s0, phys, run).value;
            t.at == goal && DataOk(t, phys) && SameInterrupts(s, t)
    decreases Work(After(s0, phys, before).value)
  {
    var s := After(s0, phys, before).value;
    run := before;
    if s.at < goal {
      OnwardWorks(s, phys);
      AfterStep(s0, phys, before, Onward(s));
      WorkIsNatural(s, phys);
      WorkIsNatural(Next(s, phys, Onward(s)), phys);
      run := ProbeComesTo(s0, phys, before + [Onward(s)], goal);
    }
  }

  /** Until the interrupt has been requested nobody else is about, whatever is raised. */
  predicate Early(s: State, phys: nat) {
    s.at < ENABLE_IRQ ==> DataOk(s, phys) && s.handler.NoHandler?
  }

  lemma StepKeepsEarly(s: State, phys: nat, a: Action)
    requires Early(s, phys) && Enabled(s, a)
    ensures Early(Next(s, phys, a), phys)
  {
    if s.at < ENABLE_IRQ {
      match a {
        case Statement(ok) =>
          StatementKeepsData(s, phys, ok);
          StatementLeavesInterrupts(s, phys, ok);
        case MoveByte =>
          MoveKeepsData(s, phys);
          MoveIs(s, phys);
        case Complete => CompleteKeepsData(s, phys);
        case _ => OthersKeepData(s, phys, a);
      }
    } else {
      LateStaysLate(s, phys, a);
    }
  }

  lemma LateStaysLate(s: State, phys: nat, a: Action)
    requires s.at >= ENABLE_IRQ && Enabled(s, a)
    ensures Next(s, phys, a).at >= ENABLE_IRQ
  {
  }

  lemma {:induction false} RunKeepsEarly(s0: State, phys: nat, run: seq<Action>)
    requires Before(s0, phys) && After(s0, phys, run).Some?
    ensures Early(After(s0, phys, run).value, phys)
    decreases |run|
  {
    if run != [] {
      RunKeepsEarly(s0, phys, run[..|run| - 1]);
      StepKeepsEarly(After(s0, phys, run[..|run| - 1]).value, phys, run[|run| - 1]);
    }
  }

  /** Behind the polling loops every statement can be run at any time. */
  lemma {:induction false} LateComesToItsEnd(s0: State, phys: nat, before: seq<Action>) returns (run: seq<Action>)
    requires After(s0, phys, before).Some? && ENABLE_IRQ <= After(s0, phys, before).value.at <= RUNNING
    ensures before <= run && After(s0, phys, run).Some? && After(s0, phys, run).value.at == RUNNING
    ensures forall i | |before| <= i < |run| :: run[i] == Statement(true)
    decreases RUNNING - After(s0, phys, before).value.at
  {
    var s := After(s0, phys, before).value;
    run := before;
    if s.at < RUNNING {
      AfterStep(s0, phys, before, Statement(true));
      run := LateComesToItsEnd(s0, phys, before + [Statement(true)]);
    }
  }

  /** For every card and in every interleaving a probe that has not failed can still return 0, by steps of the CPU
      and the engine alone. */
  lemma ProbeCanEnd(s0: State, phys: nat, before: seq<Action>) returns (run: seq<Action>)
    requires Before(s0, phys) && After(s0, phys, before).Some? && After(s0, phys, before).value.at <= RUNNING
    ensures before <= run && After(s0, phys, run).Some? && After(s0, phys, run).value.at == RUNNING
    ensures forall i | |before| <= i < |run| :: run[i] == MoveByte || run[i] == Complete || run[i] == Statement(true)
  {
    RunKeepsEarly(s0, phys, before);
    run := before;
    if After(s0, phys, before).value.at < ENABLE_IRQ {
      run := ProbeComesTo(s0, phys, before, ENABLE_IRQ);
    }
    run := LateComesToItsEnd(s0, phys, run);
  }

  // --- a card on which 0x100 alone is left over ---------------------------------------------------------------

  /** The handler reads 0x100 alone ... */
  lemma HandlerReadsAlone(s0: State, phys: nat, before: seq<Action>) returns (run: seq<Action>)
    requires After(s0, phys, before).Some?
    requires var s := After(s0, phys, before).value;
             ENABLE_IRQ <= s.at <= RUNNING && s.handler.NoHandler? && s.raised == ALONE
    ensures before <= run
    ensures var s := After(s0, phys, before).value;
            After(s0, phys, run) ==
            Some(s.(raised := Interrupts(false, false), notice := Some(ALONE), handler := ReadCmd))
  {
    var s := After(s0, phys, before).value;
    AfterStep(s0, phys, before, Interrupt);
    run := before + [Interrupt];
    AfterStep(s0, phys, run, StepHandler);
    run := run + [StepHandler];
    AfterStep(s0, phys, run, StepHandler);
    run := run + [StepHandler];
  }

  /** ... writes CMD back with the acknowledgement, which leaves it as it was but starts it over if it is busy ... */
  function Acknowledging(s: State, busy: bool): State {
    s.(handler := InitTasklet, engine := s.engine.(moved := 0),
       faults := s.faults.(reprogrammed := s.faults.reprogrammed || busy,
                           startedByHandler := s.faults.startedByHandler || busy))
  }

  predicate Third(cmd: Word) { cmd == CMD3 || cmd == Done(CMD3) }

  lemma ThirdIs(cmd: Word)
    requires Third(cmd)
    ensures Stored(cmd | ACKINT) == cmd && Busy(cmd | ACKINT) == Busy(cmd) && !Silent(cmd)
  {
  }

  lemma WriteStep(s: State, cmd: Word)
    requires s.handler == WriteCmd(cmd) && Stored(cmd) == s.engine.cmd && Busy(cmd) == Busy(s.engine.cmd)
    ensures RunHandler(s) == Acknowledging(s, Busy(s.engine.cmd))
  {
  }

  lemma AcknowledgeSteps(s: State, busy: bool)
    requires s.handler.ReadCmd? && Third(s.engine.cmd) && busy == Busy(s.engine.cmd)
    ensures RunHandler(s).handler.WriteCmd? && RunHandler(RunHandler(s)) == Acknowledging(s, busy)
  {
    var cmd := s.engine.cmd | ACKINT;
    ThirdIs(s.engine.cmd);
    assert RunHandler(s) == s.(handler := WriteCmd(cmd));
    WriteStep(s.(handler := WriteCmd(cmd)), cmd);
  }

  /** ... and schedules the tasklet. */
  function Scheduling(s: State): State {
    s.(handler := NoHandler, tasklet := Scheduled, inits := s.inits + 1,
       faults := s.faults.(reinitialised := s.faults.reinitialised || s.tasklet.Scheduled?))
  }

  lemma ScheduleSteps(s: State)
    requires s.handler.InitTasklet?
    ensures RunHandler(s).handler.Schedule? && RunHandler(RunHandler(s)) == Scheduling(s)
  {
  }

  lemma TwoHandlerSteps(s0: State, phys: nat, before: seq<Action>, s: State) returns (run: seq<Action>)
    requires After(s0, phys, before) == Some(s) && !s.handler.NoHandler? && !RunHandler(s).handler.NoHandler?
    ensures before <= run && After(s0, phys, run) == Some(RunHandler(RunHandler(s)))
  {
    AfterStep(s0, phys, before, StepHandler);
    run := before + [StepHandler];
    AfterStep(s0, phys, run, StepHandler);
    run := run + [StepHandler];
  }

  lemma HandlerSchedules(s0: State, phys: nat, before: seq<Action>, busy: bool) returns (run: seq<Action>)
    requires After(s0, phys, before).Some? && After(s0, phys, before).value.handler.ReadCmd?
    requires var cmd := After(s0, phys, before).value.engine.cmd; Third(cmd) && busy == Busy(cmd)
    ensures After(s0, phys, run) == Some(Scheduling(Acknowledging(After(s0, phys, before).value, busy)))
  {
    var s := After(s0, phys, before).value;
    AcknowledgeSteps(s, busy);
    run := TwoHandlerSteps(s0, phys, before, s);
    ScheduleSteps(Acknowledging(s, busy));
    run := TwoHandlerSteps(s0, phys, run, Acknowledging(s, busy));
  }

  /** The transfers that came to their end in a run. */
  function Completes(run: seq<Action>): nat { Count(run, (a: Action) => a.Complete?) }

  lemma CompletesStep(run: seq<Action>, a: Action)
    ensures Completes(run + [a]) == Completes(run) + If(a.Complete?, 1)
  {
    CountAppend(run, a, (a: Action) => a.Complete?);
  }

  lemma {:induction false} CompletesGrow(before: seq<Action>, run: seq<Action>)
    requires before <= run
    ensures Completes(before) <= Completes(run)
    decreases |run|
  {
    if |before| < |run| {
      var last := |run| - 1;
      assert run == run[..last] + [run[last]];
      CompletesStep(run[..last], run[last]);
      CompletesGrow(before, run[..last]);
    } else {
      assert before == run;
    }
  }

  /** What is left when the engine moves its bytes, wherever they go. */
  predicate SameButBytes(s: State, t: State) {
    t.at == s.at && t.handler == s.handler && t.inits == s.inits && t.tasklet == s.tasklet && t.notice == s.notice &&
    t.raised.tick == s.raised.tick
  }

  lemma MoveSpares(s: State, phys: nat)
    ensures var t := Move(s, phys);
            SameButBytes(s, t) && t.raised == s.raised && t.engine == s.engine.(moved := s.engine.moved + 1)
  {
  }

  /** A busy engine comes to its end, whatever it was told to do. */
  lemma {:induction false} EngineEnds(s0: State, phys: nat, before: seq<Action>) returns (run: seq<Action>)
    requires After(s0, phys, before).Some? && Busy(After(s0, phys, before).value.engine.cmd)
    ensures before <= run && After(s0, phys, run).Some? && Completes(run) > Completes(before)
    ensures var s, t := After(s0, phys, before).value, After(s0, phys, run).value;
            && SameButBytes(s, t) && t.engine.cmd == Done(s.engine.cmd)
            && t.raised.dma == (s.raised.dma || !Silent(s.engine.cmd))
    decreases var e := After(s0, phys, before).value.engine; e.count - e.moved
  {
    var s := After(s0, phys, before).value;
    if s.engine.moved < s.engine.count {
      AfterStep(s0, phys, before, MoveByte);
      MoveSpares(s, phys);
      CompletesStep(before, MoveByte);
      run := EngineEnds(s0, phys, before + [MoveByte]);
    } else {
      AfterStep(s0, phys, before, Complete);
      CompletesStep(before, Complete);
      run := before + [Complete];
    }
  }

  /** With 0x100 alone left over: the tasklet is scheduled while the third transfer is busy, and not a byte of it has
      arrived; the handler's write starts the transfer over again. */
  lemma LeftOverFails(s0: State, phys: nat) returns (run: seq<Action>)
    requires Before(s0, phys) && s0.raised == ALONE
    ensures After(s0, phys, run).Some?
    ensures var s := After(s0, phys, run).value;
            && s.tasklet.Scheduled? && s.at == START_TIMER && s.engine.cmd == CMD3 && s.engine.moved == 0
            && s.faults.startedByHandler && s.inits == 1 && s.handler.NoHandler? && s.raised == Interrupts(false, false)
    ensures !InTime(After(s0, phys, run).value) && !NoFaults(After(s0, phys, run).value)
  {
    Commands();
    assert After(s0, phys, []) == Some(s0);
    run := ProbeComesTo(s0, phys, [], START3);
    var s := After(s0, phys, run).value;
    AfterStep(s0, phys, run, Statement(true));
    run := HandlerReadsAlone(s0, phys, run + [Statement(true)]);
    run := HandlerSchedules(s0, phys, run, true);
  }

  lemma LeftOverIsReadAgain(s0: State, phys: nat) returns (run: seq<Action>)
    requires Before(s0, phys) && s0.raised == ALONE
    ensures After(s0, phys, run).Some?
    ensures var s := After(s0, phys, run).value;
            && s.at == START_TIMER && s.inits == 1 && s.raised == Interrupts(false, false) && s.handler.ReadCmd?
            && s.engine.cmd == Done(CMD3)
  {
    Commands();
    run := LeftOverFails(s0, phys);
    run := EngineEnds(s0, phys, run);
    run := HandlerReadsAlone(s0, phys, run);
  }

  /** Two tasklets are one too many for the notice. */
  lemma TooOften(s: State)
    requires AllThere(s) && !s.raised.dma && s.handler.NoHandler? && s.inits == 2
    ensures !NoticeDecides(s)
  {
  }

  /** ... and when the transfer is done after all, the tasklet is initialised a second time. */
  lemma LeftOverSchedulesTwice(s0: State, phys: nat) returns (run: seq<Action>)
    requires Before(s0, phys) && s0.raised == ALONE
    ensures After(s0, phys, run).Some? && !NoticeDecides(After(s0, phys, run).value)
  {
    Commands();
    run := LeftOverIsReadAgain(s0, phys);
    run := HandlerSchedules(s0, phys, run, false);
    TooOften(After(s0, phys, run).value);
  }

  // --- the transfer that never ends ---------------------------------------------------------------------------

  /** The third transfer is busy, 0x100 alone is raised, and the handler has not noticed yet. */
  predicate Restarting(s: State) {
    s.at == START_TIMER && s.engine.cmd == CMD3 && s.raised == ALONE && s.handler.NoHandler?
  }

  lemma WriteRestarts(s: State)
    requires s.handler == WriteCmd(CMD3 | ACKINT)
    ensures var t := RunHandler(s);
            t.handler.InitTasklet? && t.engine.cmd == CMD3 && t.at == s.at && t.raised == s.raised
  {
    ThirdIs(CMD3);
  }

  /** The handler reads the busy CMD, the transfer ends and raises 0x100, and the write starts it once more. */
  lemma OneMoreTransfer(s0: State, phys: nat, before: seq<Action>) returns (run: seq<Action>)
    requires After(s0, phys, before).Some? && Restarting(After(s0, phys, before).value)
    ensures After(s0, phys, run).Some? && Restarting(After(s0, phys, run).value)
    ensures Completes(run) > Completes(before)
  {
    run := HandlerReadsAlone(s0, phys, before);
    AfterStep(s0, phys, run, StepHandler);
    CompletesGrow(before, run + [StepHandler]);
    Commands();
    run := EngineEnds(s0, phys, run + [StepHandler]);
    WriteRestarts(After(s0, phys, run).value);
    AfterStep(s0, phys, run, StepHandler);
    var written := run + [StepHandler];
    CompletesGrow(run, written);
    var t := After(s0, phys, written).value;
    ScheduleSteps(t);
    run := TwoHandlerSteps(s0, phys, written, t);
    CompletesGrow(written, run);
  }

  lemma ReachesRestart(s0: State, phys: nat) returns (run: seq<Action>)
    requires Before(s0, phys) && s0.raised == ALONE
    ensures After(s0, phys, run).Some? && Restarting(After(s0, phys, run).value)
  {
    Commands();
    assert After(s0, phys, []) == Some(s0);
    run := ProbeComesTo(s0, phys, [], START3);
    AfterStep(s0, phys, run, Statement(true));
    run := run + [Statement(true)];
  }

  /** With 0x100 alone left over there is no end to it: the third transfer can be run any number of times. */
  lemma {:induction false} TransfersWithoutEnd(s0: State, phys: nat, n: nat) returns (run: seq<Action>)
    requires Before(s0, phys) && s0.raised == ALONE
    ensures After(s0, phys, run).Some? && Restarting(After(s0, phys, run).value) && Completes(run) >= n
    decreases n
  {
    if n == 0 {
      run := ReachesRestart(s0, phys);
    } else {
      run := TransfersWithoutEnd(s0, phys, n - 1);
      run := OneMoreTransfer(s0, phys, run);
    }
  }

  lemma WorkedStep(s0: State, phys: nat, run: seq<Action>, a: Action)
    requires After(s0, phys, run).Some?
    ensures Worked(s0, phys, run + [a]) == Worked(s0, phys, run) + If(Works(After(s0, phys, run).value, a), 1)
  {
    assert (run + [a])[..|run|] == run;
  }

  lemma {:induction false} TransfersAreWork(s0: State, phys: nat, run: seq<Action>)
    requires After(s0, phys, run).Some?
    ensures Completes(run) <= Worked(s0, phys, run)
    decreases |run|
  {
    if run != [] {
      var init, a := run[..|run| - 1], run[|run| - 1];
      assert run == init + [a];
      AfterLast(s0, phys, init, a);
      WorkedStep(s0, phys, init, a);
      CompletesStep(init, a);
      TransfersAreWork(s0, phys, init);
    }
  }

  /** In every interleaving engine and CPU do at most `n` actions of work. */
  ghost predicate WorkAtMost(s0: State, phys: nat, n: nat) {
    forall run :: After(s0, phys, run).Some? ==> Worked(s0, phys, run) <= n
  }

  lemma NoBound(s0: State, phys: nat, n: nat)
    requires Before(s0, phys) && s0.raised == ALONE
    ensures !WorkAtMost(s0, phys, n)
  {
    var run := TransfersWithoutEnd(s0, phys, n + 1);
    TransfersAreWork(s0, phys, run);
  }

  /** The work of engine and CPU is bounded exactly for the cards on which 0x100 was not left over alone; for the
      others no bound holds. */
  lemma WorkIsBoundedIff(s0: State, phys: nat)
    requires Before(s0, phys)
    ensures WorkAtMost(s0, phys, 54) <==> s0.raised != ALONE
    ensures (exists n :: WorkAtMost(s0, phys, n)) <==> s0.raised != ALONE
  {
    if s0.raised == ALONE {
      forall n: nat
        ensures !WorkAtMost(s0, phys, n)
      {
        NoBound(s0, phys, n);
      }
    } else {
      forall run | After(s0, phys, run).Some?
        ensures Worked(s0, phys, run) <= 54
      {
        WorkIsBounded(s0, phys, run);
      }
    }
  }

  /** The promises hold in every interleaving exactly when the card does not have 0x100 raised alone before probe, which
      probe never clears. Together with 0x1000 it does no harm. */
  lemma ExactlyWithoutLeftOver(s0: State, phys: nat)
    requires Before(s0, phys)
    ensures Always(s0, phys, InTime) <==> s0.raised != ALONE
    ensures Always(s0, phys, NoFaults) <==> s0.raised != ALONE
    ensures Always(s0, phys, NoticeDecides) <==> s0.raised != ALONE
  {
    if s0.raised == ALONE {
      var run := LeftOverFails(s0, phys);
      var run2 := LeftOverSchedulesTwice(s0, phys);
    } else {
      forall run | After(s0, phys, run).Some?
        ensures InTime(After(s0, phys, run).value) && NoFaults(After(s0, phys, run).value) &&
                NoticeDecides(After(s0, phys, run).value)
      {
        TaskletSeesThreeCopies(s0, phys, run);
        NothingGoesAstray(s0, phys, run);
        TaskletIffReadAlone(s0, phys, run);
      }
    }
  }
}
