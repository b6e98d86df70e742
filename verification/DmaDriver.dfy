/** The DMA driver's own code: the three transfers of probe with their polling loops, the interrupt handler, the
    timer callback and the tasklet, each run on the driver's fields and the page. What they do is a run of
    the machine in DmaCard. */
module DmaDriver {
  import opened Kernel
  import opened DmaCard

  const REST: nat := 2 * N         // where the part of the page begins that the first two transfers leave alone

  /** What the engine does while the CPU looks away: up to `k` bytes, and the end once all are moved. */
  function EngineRuns(s: State, phys: nat, k: nat): State
    decreases k
  {
    if !Busy(s.engine.cmd) then s
    else if s.engine.moved >= s.engine.count then Next(s, phys, Complete)
    else if k == 0 then s
    else EngineRuns(Next(s, phys, MoveByte), phys, k - 1)
  }

  /** Some run of the machine leads from `s` to `t`. */
  ghost predicate Reaches(s: State, phys: nat, t: State) {
    exists run :: After(s, phys, run) == Some(t)
  }

  lemma ReachesItself(s: State, phys: nat)
    ensures Reaches(s, phys, s)
  {
    assert After(s, phys, []) == Some(s);
  }

  lemma ReachesOneMore(s: State, phys: nat, t: State, a: Action)
    requires Reaches(s, phys, t) && Enabled(t, a)
    ensures Reaches(s, phys, Next(t, phys, a))
  {
    var run :| After(s, phys, run) == Some(t);
    AfterLast(s, phys, run, a);
  }

  lemma {:induction false} ReachesAlong(s: State, phys: nat, t: State, run: seq<Action>)
    requires Reaches(s, phys, t) && After(t, phys, run).Some?
    ensures Reaches(s, phys, After(t, phys, run).value)
    decreases |run|
  {
    if run != [] {
      var init, a := run[..|run| - 1], run[|run| - 1];
      assert run == init + [a];
      AfterLast(t, phys, init, a);
      ReachesAlong(s, phys, t, init);
      ReachesOneMore(s, phys, After(t, phys, init).value, a);
    }
  }

  lemma ReachesOn(s: State, phys: nat, t: State, u: State)
    requires Reaches(s, phys, t) && Reaches(t, phys, u)
    ensures Reaches(s, phys, u)
  {
    var run :| After(t, phys, run) == Some(u);
    ReachesAlong(s, phys, t, run);
  }

  lemma ReachesNext(s: State, phys: nat, a: Action)
    requires Enabled(s, a)
    ensures Reaches(s, phys, Next(s, phys, a))
  {
    ReachesItself(s, phys);
    ReachesOneMore(s, phys, s, a);
  }

  /** A statement of probe after others. */
  lemma Do(s: State, t: State, phys: nat, ok: bool)
    requires DataOk(t, phys) && 0 <= t.at < RUNNING && Reaches(s, phys, t)
    ensures DataOk(RunStatement(t, phys, ok), phys) && Reaches(s, phys, RunStatement(t, phys, ok))
  {
    StatementKeepsData(t, phys, ok);
    ReachesOneMore(s, phys, t, Statement(ok));
  }

  lemma {:induction false} EngineRunsOn(s: State, phys: nat, k: nat)
    ensures Reaches(s, phys, EngineRuns(s, phys, k))
    decreases k
  {
    if !Busy(s.engine.cmd) {
      ReachesItself(s, phys);
    } else if s.engine.moved >= s.engine.count {
      ReachesNext(s, phys, Complete);
    } else if k == 0 {
      ReachesItself(s, phys);
    } else {
      ReachesNext(s, phys, MoveByte);
      EngineRunsOn(Next(s, phys, MoveByte), phys, k - 1);
      ReachesOn(s, phys, Next(s, phys, MoveByte), EngineRuns(s, phys, k));
    }
  }

  /** With nobody else about, all that changes are the bytes that were still to come. */
  predicate SameRest(s: State, t: State) {
    && t.at == s.at && t.cmdVar == s.cmdVar
    && (s.at == POLL1 || s.at == POLL2 ==> |t.page| == |s.page| == PAGE_SIZE && t.page[REST..] == s.page[REST..])
    && t.callback == s.callback && t.handler == s.handler && t.raised.tick == s.raised.tick
    && t.notice == s.notice && t.tasklet == s.tasklet && t.inits == s.inits
    && (s.at == POLL1 || s.at == POLL2 ==> t.raised == s.raised)
  }

  /** A byte goes from the page to the card's memory or the other way. */
  lemma MoveReadsAndWrites(s: State, phys: nat)
    requires DataOk(s, phys) && Enabled(s, MoveByte)
    ensures var e := s.engine;
            var from, to, e' := e.src + e.moved, e.dst + e.moved, e.(moved := e.moved + 1);
            if From(e.cmd) == 2 then
              && phys <= from < phys + |s.page|
              && Move(s, phys) == s.(engine := e', card := s.card[to := s.page[from - phys]])
            else
              && from in s.card && phys <= to < phys + |s.page|
              && Move(s, phys) == s.(engine := e', page := s.page[to - phys := s.card[from]])
  {
    Commands();
    if s.at != POLL1 {
      assert CardByte(s.card, s.engine.moved).Some?;
    }
  }

  lemma MoveLeavesRest(s: State, phys: nat)
    requires DataOk(s, phys) && Enabled(s, MoveByte)
    ensures DataOk(Move(s, phys), phys) && SameRest(s, Move(s, phys))
    ensures Move(s, phys).engine == s.engine.(moved := s.engine.moved + 1)
  {
    MoveKeepsData(s, phys);
    MoveIs(s, phys);
  }

  lemma CompleteLeavesRest(s: State, phys: nat)
    requires DataOk(s, phys) && Enabled(s, Complete)
    ensures var t := Next(s, phys, Complete);
            DataOk(t, phys) && SameRest(s, t) && !Busy(t.engine.cmd) && t.raised.dma == (s.raised.dma || START3 < s.at)
  {
    CompleteKeepsData(s, phys);
  }

  /** However far the engine gets, the data are sound; with time for ten bytes it is done, and when it is done
      the third transfer has raised its interrupt. */
  lemma {:induction false} EngineKeepsData(s: State, phys: nat, k: nat)
    requires DataOk(s, phys)
    ensures var t := EngineRuns(s, phys, k);
            && DataOk(t, phys) && SameRest(s, t)
            && (Busy(s.engine.cmd) && s.engine.moved + k >= N ==> !Busy(t.engine.cmd))
            && (Busy(s.engine.cmd) && !Busy(t.engine.cmd) ==> t.raised.dma == (s.raised.dma || START3 < s.at))
    decreases k
  {
    if Busy(s.engine.cmd) {
      if s.engine.moved >= s.engine.count {
        CompleteLeavesRest(s, phys);
      } else if k > 0 {
        MoveLeavesRest(s, phys);
        EngineKeepsData(Next(s, phys, MoveByte), phys, k - 1);
      }
    }
  }

  lemma {:induction false} EngineKeepsInv(s: State, phys: nat, k: nat)
    requires Inv(s, phys)
    ensures Inv(EngineRuns(s, phys, k), phys)
    decreases k
  {
    if Busy(s.engine.cmd) {
      if s.engine.moved >= s.engine.count {
        CompleteKeepsInv(s, phys);
      } else if k > 0 {
        MoveKeepsInv(s, phys);
        EngineKeepsInv(Next(s, phys, MoveByte), phys, k - 1);
      }
    }
  }

  lemma StartIs(s: State, phys: nat, cmd: Word)
    requires s.faults == Faults(false, false, false, false) && !Busy(s.engine.cmd)
    requires (s.at == START1 && cmd == CMD1) || (s.at == START2 && cmd == CMD2) || (s.at == START3 && cmd == CMD3)
    ensures Stored(cmd) == cmd
    ensures RunStatement(s, phys, true) ==
            s.(at := s.at + 1, cmdVar := cmd, engine := s.engine.(cmd := cmd, moved := 0))
  {
    Commands();
  }

  lemma TextTwice(page: seq<char>, rest: seq<char>)
    requires OnPage(page, 0, N) && OnPage(page, N, N) && page[REST..] == rest
    ensures page == HELLO + HELLO + rest
  {
    SliceIs(page, 0);
    SliceIs(page, N);
    assert page == page[0..N] + page[N..N + N] + page[REST..];
  }

  /** The handler run on, with nobody else taking a step, to its end. */
  function Handled(s: State): State
    decreases HandlerRank(s.handler)
  {
    if s.handler.NoHandler? then s else Handled(RunHandler(s))
  }

  lemma {:induction false} HandledIsReached(s: State, phys: nat)
    ensures Reaches(s, phys, Handled(s))
    decreases HandlerRank(s.handler)
  {
    if s.handler.NoHandler? {
      ReachesItself(s, phys);
    } else {
      ReachesNext(s, phys, StepHandler);
      HandledIsReached(RunHandler(s), phys);
      ReachesOn(s, phys, RunHandler(s), Handled(s));
    }
  }

  lemma HandlerStepKeepsInv(s: State, phys: nat)
    requires Inv(s, phys) && !s.handler.NoHandler?
    ensures Inv(RunHandler(s), phys)
  {
    StepKeepsInv(s, phys, StepHandler);
  }

  lemma HandlerStepKeepsCmd(s: State, phys: nat)
    requires Inv(s, phys) && !s.handler.NoHandler?
    ensures RunHandler(s).engine.cmd == s.engine.cmd
  {
    if s.handler.WriteCmd? {
      AcknowledgeIs(s, phys);
    }
  }

  lemma {:induction false} HandledKeepsInv(s: State, phys: nat)
    requires Inv(s, phys)
    ensures Inv(Handled(s), phys) && Handled(s).engine.cmd == s.engine.cmd
    decreases HandlerRank(s.handler)
  {
    if s.handler.NoHandler? {
      assert Handled(s) == s;
    } else {
      HandlerStepKeepsInv(s, phys);
      HandlerStepKeepsCmd(s, phys);
      HandledKeepsInv(RunHandler(s), phys);
    }
  }

  /** The handler up to the acknowledgement of what it read ... */
  function Acked(s: State): State {
    s.(raised := Interrupts(false, false), notice := if s.raised.dma then Some(s.raised) else s.notice)
  }

  lemma HandledFromRead(s: State)
    requires s.handler.Read?
    ensures !s.raised.dma && !s.raised.tick ==> Handled(s) == s.(handler := NoHandler)
    ensures s.raised.tick ==> Handled(s) == Acked(s).(handler := NoHandler)
    ensures s.raised == ALONE ==> Handled(s) == Handled(Acked(s).(handler := ReadCmd))
  {
    if s.raised.dma || s.raised.tick {
      var s1 := RunHandler(s);
      assert Handled(s) == Handled(s1);
      assert RunHandler(s1) == Acked(s).(handler := if s.raised == ALONE then ReadCmd else NoHandler);
      assert Handled(s1) == Handled(RunHandler(s1));
    } else {
      assert Handled(RunHandler(s)) == RunHandler(s);
    }
  }

  /** ... and from there, for the DMA interrupt, with the value it writes to CMD. */
  function Finished(s: State, cmd: Word): State {
    s.(handler := NoHandler, engine := s.engine.(cmd := Stored(cmd), moved := 0),
       tasklet := Scheduled, inits := s.inits + 1,
       faults := Faults(s.faults.reprogrammed || Busy(s.engine.cmd), s.faults.stray,
                        s.faults.startedByHandler || Busy(cmd), s.faults.reinitialised || s.tasklet.Scheduled?))
  }

  lemma HandledFromWrite(s: State, cmd: Word)
    requires s.handler == WriteCmd(cmd)
    ensures Handled(s) == Finished(s, cmd)
  {
    var s1 := RunHandler(s);
    var s2 := RunHandler(s1);
    assert s1.handler.InitTasklet? && s2.handler.Schedule?;
    assert Handled(s) == Handled(s1) == Handled(s2) == Handled(RunHandler(s2)) == RunHandler(s2);
  }

  lemma ReadCmdStep(s: State, cmd: Word)
    requires s.handler.ReadCmd? && cmd == s.engine.cmd | ACKINT
    ensures RunHandler(s) == s.(handler := WriteCmd(cmd))
  {
  }

  lemma HandledFromReadCmd(s: State, cmd: Word)
    requires s.handler.ReadCmd? && RunHandler(s) == s.(handler := WriteCmd(cmd))
    ensures Handled(s) == Finished(s, cmd)
  {
    HandledFromWrite(s.(handler := WriteCmd(cmd)), cmd);
    assert Handled(s) == Handled(RunHandler(s));
  }

  /** The third transfer under way and nothing seen of it: that is sound unless 0x100 is raised alone. */
  lemma UnderWay(s: State, phys: nat)
    requires DataOk(s, phys) && s.at == RUNNING && s.engine.cmd == CMD3 && s.handler.NoHandler?
    requires s.tasklet.Raw? && s.inits == 0 && s.notice.None?
    ensures s.raised != ALONE ==> Inv(s, phys)
  {
    Commands();
  }

  /** The whole handler, from the interrupt on. */
  lemma HandlerIs(s: State, phys: nat)
    requires ENABLE_IRQ <= s.at <= RUNNING && s.handler.NoHandler?
    ensures Handled(Next(s, phys, Interrupt)) ==
            if s.raised == ALONE then Handled(Acked(s).(handler := ReadCmd))
            else if s.raised.tick then Acked(s)
            else s
  {
    var s1 := Next(s, phys, Interrupt);
    HandledFromRead(s1);
    assert Acked(s1).(handler := ReadCmd) == Acked(s).(handler := ReadCmd);
  }

  lemma HandlerSound(s: State, phys: nat)
    requires ENABLE_IRQ <= s.at <= RUNNING && s.handler.NoHandler?
    ensures Inv(s, phys) ==>
              var t := Handled(Next(s, phys, Interrupt));
              Inv(t, phys) && t.engine.cmd == s.engine.cmd
  {
    if Inv(s, phys) {
      StepKeepsInv(s, phys, Interrupt);
      HandledKeepsInv(Next(s, phys, Interrupt), phys);
    }
  }

  /** A callback of the machine from the expiry of the timer to its return, with nothing in between. */
  function CalledBack(s: State, phys: nat): State
    requires Enabled(s, Fire)
  {
    Next(Next(Next(Next(s, phys, Fire), phys, StepCallback), phys, StepCallback), phys, StepCallback)
  }

  lemma CallbackSound(s: State, phys: nat)
    requires Enabled(s, Fire)
    ensures Inv(s, phys) ==> Inv(CalledBack(s, phys), phys)
  {
    if Inv(s, phys) {
      StepKeepsInv(s, phys, Fire);
      var s1 := Next(s, phys, Fire);
      StepKeepsInv(s1, phys, StepCallback);
      var s2 := Next(s1, phys, StepCallback);
      StepKeepsInv(s2, phys, StepCallback);
      StepKeepsInv(Next(s2, phys, StepCallback), phys, StepCallback);
    }
  }

  /** The print of the page that holds the text twice. */
  lemma PrintedIs(page: seq<char>, rest: seq<char>, text: Option<seq<char>>)
    requires page == HELLO + HELLO + rest
    requires text.Some? <==> exists k | 0 <= k < |page| :: page[k] == '\0'
    requires text.Some? ==> |text.value| < |page| && text.value == page[..|text.value|] && page[|text.value|] == '\0'
    ensures text.Some? <==> '\0' in rest
    ensures text.Some? ==> HELLO + HELLO <= text.value
  {
    assert forall k | 0 <= k < REST :: page[k] == (HELLO + HELLO)[k] != '\0';
    assert forall k | REST <= k < |page| :: page[k] == rest[k - REST];
    if '\0' in rest {
      var j :| 0 <= j < |rest| && rest[j] == '\0';
      assert page[REST + j] == '\0';
    }
    if text.Some? {
      assert |text.value| >= REST;
      assert text.value[..REST] == page[..REST] == HELLO + HELLO;
    }
  }

  /** The text is printed from byte 20 on, and the print ends in the page if and only if a zero follows. */
  ghost predicate PrintsText(page: seq<char>, text: Option<seq<char>>) {
    && |page| == PAGE_SIZE
    && (text.Some? <==> exists k | REST + N <= k < PAGE_SIZE :: page[k] == '\0')
    && (text.Some? ==> HELLO <= text.value && (text.value == HELLO <==> page[REST + N] == '\0'))
  }

  lemma PrintIs(page: seq<char>, text: Option<seq<char>>)
    requires OnPage(page, REST, N)
    requires text.Some? <==> exists k | REST <= k < PAGE_SIZE :: page[k] == '\0'
    requires text.Some? ==>
               && REST + |text.value| < PAGE_SIZE && text.value == page[REST..REST + |text.value|]
               && page[REST + |text.value|] == '\0' && '\0' !in text.value
    ensures PrintsText(page, text)
  {
    assert forall k | 0 <= k < N :: page[REST + k] == HELLO[k] != '\0';
    forall k | REST <= k < REST + N
      ensures page[k] != '\0'
    {
      assert page[REST + (k - REST)] == HELLO[k - REST];
    }
    if text.Some? {
      var n := |text.value|;
      assert n >= N && page[REST + n] == '\0';
      SliceIs(page, REST);
      assert text.value[..N] == HELLO;
      assert n > N ==> text.value[N] == page[REST + N];
    }
  }

  class Driver {
    const phys: nat                  // the bus address of the page
    const page: array<char>          // dma_virt
    var card: map<nat, char>         // the card's own memory
    var engine: Engine
    var raised: Interrupts
    var pending: bool
    var tasklet: Tasklet
    ghost var inits: nat
    ghost var notice: Option<Interrupts>
    ghost var faults: Faults

    constructor (phys: nat, page: array<char>, card: map<nat, char>, engine: Engine, raised: Interrupts)
      ensures this.page == page && this.phys == phys
      ensures Abs(STRCPY, 0) == Init(page[..], card, engine, raised)
    {
      this.phys, this.page, this.card, this.engine, this.raised := phys, page, card, engine, raised;
      pending, tasklet, inits, notice := false, Raw, 0, None;
      faults := Faults(false, false, false, false);
    }

    /** The state of the machine at the statement `at` of probe, when no callback and no handler runs. */
    ghost function Abs(at: int, cmdVar: Word): State
      reads this, page
    {
      State(at, cmdVar, page[..], card, engine, raised, pending, Idle, NoHandler, tasklet, inits, notice, faults)
    }

    method MoveByte(ghost at: int, ghost cmdVar: Word)
      requires DataOk(Abs(at, cmdVar), phys)
      requires Enabled(Abs(at, cmdVar), DmaCard.Action.MoveByte)
      modifies this`card, this`engine, page
      ensures Abs(at, cmdVar) == Move(old(Abs(at, cmdVar)), phys) && DataOk(Abs(at, cmdVar), phys)
    {
      ghost var s := Abs(at, cmdVar);
      MoveKeepsData(s, phys);
      MoveReadsAndWrites(s, phys);
      var from, to := engine.src + engine.moved, engine.dst + engine.moved;
      if From(engine.cmd) == 2 {
        card := card[to := page[from - phys]];
      } else {
        page[to - phys] := card[from];
      }
      engine := engine.(moved := engine.moved + 1);
    }

    /** The card gets the time for `k` bytes. */
    method CardRuns(ghost at: int, ghost cmdVar: Word, k: nat)
      requires DataOk(Abs(at, cmdVar), phys)
      modifies this`card, this`engine, this`raised, page
      ensures Abs(at, cmdVar) == EngineRuns(old(Abs(at, cmdVar)), phys, k)
    {
      var i := 0;
      ghost var s0 := Abs(at, cmdVar);
      while i < k && Busy(engine.cmd) && engine.moved < engine.count
        invariant i <= k && DataOk(Abs(at, cmdVar), phys)
        invariant EngineRuns(Abs(at, cmdVar), phys, k - i) == EngineRuns(s0, phys, k)
      {
        MoveByte(at, cmdVar);
        i := i + 1;
      }
      if Busy(engine.cmd) && engine.moved >= engine.count {
        raised := raised.(dma := raised.dma || !Silent(engine.cmd));
        engine := engine.(cmd := Done(engine.cmd));
      }
    }

    method SetRegisters(ghost at: int, ghost cmdVar: Word, src: nat, dst: nat)
      requires DataOk(Abs(at, cmdVar), phys)
      requires at == SRC1 || at == SRC2 || at == SRC3
      requires src == if at == SRC1 then phys else CARD
      requires dst == if at == SRC1 then CARD else if at == SRC2 then phys + 0xa else phys + 0x14
      modifies this`engine
      ensures DataOk(Abs(at + 3, cmdVar), phys) && Reaches(old(Abs(at, cmdVar)), phys, Abs(at + 3, cmdVar))
      ensures engine == old(engine).(src := src, dst := dst, count := N)
    {
      ghost var s0 := Abs(at, cmdVar);
      ReachesItself(s0, phys);
      Do(s0, s0, phys, true);
      engine := engine.(src := src);
      assert Abs(at + 1, cmdVar) == Next(s0, phys, Statement(true));
      ghost var s1 := Abs(at + 1, cmdVar);
      Do(s0, s1, phys, true);
      engine := engine.(dst := dst);
      assert Abs(at + 2, cmdVar) == Next(s1, phys, Statement(true));
      ghost var s2 := Abs(at + 2, cmdVar);
      Do(s0, s2, phys, true);
      engine := engine.(count := N);
      assert Abs(at + 3, cmdVar) == Next(s2, phys, Statement(true));
    }

    /** Three registers and the command, before each of the transfers. */
    method SetUp(ghost at: int, ghost cmdVar: Word, src: nat, dst: nat, cmd: Word)
      requires DataOk(Abs(at, cmdVar), phys)
      requires at == SRC1 || at == SRC2 || at == SRC3
      requires at == SRC1 ==> src == phys && dst == CARD && cmd == CMD1
      requires at == SRC2 ==> src == CARD && dst == phys + 0xa && cmd == CMD2
      requires at == SRC3 ==> src == CARD && dst == phys + 0x14 && cmd == CMD3
      modifies this`engine
      ensures DataOk(Abs(at + 4, cmd), phys) && Reaches(old(Abs(at, cmdVar)), phys, Abs(at + 4, cmd))
      ensures engine == Engine(src, dst, N, cmd, 0)
    {
      ghost var s0 := Abs(at, cmdVar);
      SetRegisters(at, cmdVar, src, dst);
      ghost var s := Abs(at + 3, cmdVar);
      Do(s0, s, phys, true);
      StartIs(s, phys, cmd);
      engine := engine.(cmd := Stored(cmd), moved := 0);
      assert Abs(at + 4, cmd) == RunStatement(s, phys, true);
    }

    /** One look at CMD after the card has had the time for `k` bytes. */
    method ReadCmd(ghost at: int, before: Word, k: nat, ghost s0: State) returns (cmd: Word)
      requires (at == POLL1 || at == POLL2) && Busy(before)
      requires DataOk(Abs(at, before), phys) && Reaches(s0, phys, Abs(at, before))
      modifies this`card, this`engine, this`raised, page
      ensures DataOk(Abs(at, cmd), phys) && Reaches(s0, phys, Abs(at, cmd)) && (k >= N ==> !Busy(cmd))
      ensures page[REST..] == old(page[REST..]) && raised == old(raised)
    {
      ghost var s := Abs(at, before);
      EngineKeepsData(s, phys, k);
      EngineRunsOn(s, phys, k);
      ReachesOn(s0, phys, s, EngineRuns(s, phys, k));
      CardRuns(at, before, k);
      Do(s0, Abs(at, before), phys, true);
      cmd := engine.cmd;
    }

    /** The polling loop. The schedule says how far the card gets before each read of CMD; when it is used
        up, the card finishes. */
    method Poll(ghost at: int, started: Word, schedule: seq<nat>) returns (cmd: Word)
      requires (at == POLL1 || at == POLL2) && DataOk(Abs(at, started), phys)
      modifies this`card, this`engine, this`raised, page
      ensures DataOk(Abs(at + 1, cmd), phys) && Reaches(old(Abs(at, started)), phys, Abs(at + 1, cmd))
      ensures page[REST..] == old(page[REST..]) && raised == old(raised)
    {
      cmd := started;
      var i := 0;
      ghost var s0 := Abs(at, started);
      ReachesItself(s0, phys);
      while Busy(cmd)
        invariant i <= |schedule| && DataOk(Abs(at, cmd), phys) && Reaches(s0, phys, Abs(at, cmd))
        invariant page[REST..] == old(page[REST..]) && raised == old(raised)
        decreases |schedule| - i, if Busy(cmd) then 1 else 0
      {
        var k := N;
        if i < |schedule| {
          k := schedule[i];
          i := i + 1;
        }
        cmd := ReadCmd(at, cmd, k, s0);
      }
      Do(s0, Abs(at, cmd), phys, true);
    }

    /** strcpy: the text and its final zero. */
    method PutText()
      requires DataOk(Abs(STRCPY, 0), phys)
      modifies page
      ensures DataOk(Abs(SRC1, 0), phys) && Reaches(old(Abs(STRCPY, 0)), phys, Abs(SRC1, 0))
      ensures page[REST..] == old(page[REST..])
    {
      ghost var was := page[..];
      ghost var s0 := Abs(STRCPY, 0);
      ReachesItself(s0, phys);
      Do(s0, s0, phys, true);
      var i := 0;
      while i < N
        invariant i <= N
        invariant forall k | 0 <= k < PAGE_SIZE :: page[k] == if k < i then HELLO[k] else was[k]
      {
        page[i] := HELLO[i];
        i := i + 1;
      }
      page[N] := '\0';
      assert page[..] == CopyText(was);
    }

    /** `%s`: the page from some byte to the first zero; None when there is none, and the print runs past the page. */
    method Print(off: nat) returns (text: Option<seq<char>>)
      requires off <= page.Length
      ensures text.Some? <==> exists k | off <= k < page.Length :: page[k] == '\0'
      ensures text.Some? ==>
                && off + |text.value| < page.Length && text.value == page[off..off + |text.value|]
                && '\0' !in text.value && page[off + |text.value|] == '\0'
    {
      var i := off;
      while i < page.Length && page[i] != '\0'
        invariant off <= i <= page.Length
        invariant forall k | off <= k < i :: page[k] != '\0'
      {
        i := i + 1;
      }
      text := if i == page.Length then None else Some(page[off..i]);
    }

    /** The text from the card back to the page. */
    method SecondTransfer(before: Word, schedule: seq<nat>, ghost s0: State) returns (cmd: Word)
      requires DataOk(Abs(SRC2, before), phys) && Reaches(s0, phys, Abs(SRC2, before))
      modifies this`card, this`engine, this`raised, page
      ensures DataOk(Abs(PUBLISH, cmd), phys) && Reaches(s0, phys, Abs(PUBLISH, cmd))
      ensures page[REST..] == old(page[REST..]) && raised == old(raised)
    {
      ghost var s1 := Abs(SRC2, before);
      SetUp(SRC2, before, CARD, phys + 0xa, CMD2);
      ReachesOn(s0, phys, s1, Abs(POLL2, CMD2));
      ghost var s2 := Abs(POLL2, CMD2);
      cmd := Poll(POLL2, CMD2, schedule);
      ReachesOn(s0, phys, s2, Abs(PUBLISH, cmd));
    }

    /** The text to the page, to the card and back. */
    method PolledTransfers(schedule1: seq<nat>, schedule2: seq<nat>) returns (cmd: Word)
      requires Before(Abs(STRCPY, 0), phys)
      modifies this`card, this`engine, this`raised, page
      ensures DataOk(Abs(PUBLISH, cmd), phys) && Reaches(old(Abs(STRCPY, 0)), phys, Abs(PUBLISH, cmd))
      ensures page[..] == HELLO + HELLO + old(page[..])[REST..] && raised == old(raised)
    {
      ghost var rest := page[REST..];
      ghost var s0 := Abs(STRCPY, 0);
      PutText();
      ghost var s1 := Abs(SRC1, 0);
      SetUp(SRC1, 0, phys, CARD, CMD1);
      ReachesOn(s0, phys, s1, Abs(POLL1, CMD1));
      ghost var s2 := Abs(POLL1, CMD1);
      cmd := Poll(POLL1, CMD1, schedule1);
      ReachesOn(s0, phys, s2, Abs(SRC2, cmd));
      cmd := SecondTransfer(cmd, schedule2, s0);
      TextTwice(page[..], rest);
    }

    /** The last transfer ... */
    method StartThird(ghost cmdVar: Word, ghost s0: State)
      requires DataOk(Abs(SRC3, cmdVar), phys) && Reaches(s0, phys, Abs(SRC3, cmdVar))
      modifies this`engine
      ensures DataOk(Abs(START_TIMER, CMD3), phys) && Reaches(s0, phys, Abs(START_TIMER, CMD3))
      ensures engine == Engine(CARD, phys + 0x14, N, CMD3, 0)
    {
      ghost var s1 := Abs(SRC3, cmdVar);
      SetUp(SRC3, cmdVar, CARD, phys + 0x14, CMD3);
      ReachesOn(s0, phys, s1, Abs(START_TIMER, CMD3));
    }

    /** ... and the timer. */
    method StartTimer(ghost cmdVar: Word, ghost s0: State)
      requires DataOk(Abs(START_TIMER, cmdVar), phys) && Reaches(s0, phys, Abs(START_TIMER, cmdVar))
      modifies this`pending
      ensures DataOk(Abs(RUNNING, cmdVar), phys) && Reaches(s0, phys, Abs(RUNNING, cmdVar)) && pending
    {
      Do(s0, Abs(START_TIMER, cmdVar), phys, true);
      pending := true;
    }

    /** The end of probe, from the registers that enable the interrupts on. */
    method Start(ghost before: Word, ghost s0: State) returns (ghost cmd: Word)
      requires DataOk(Abs(ENABLE_IRQ, before), phys) && Reaches(s0, phys, Abs(ENABLE_IRQ, before))
      requires tasklet.Raw? && inits == 0 && notice.None?
      modifies this`engine, this`pending
      ensures Reaches(s0, phys, Abs(RUNNING, cmd)) && cmd == CMD3 && (raised != ALONE ==> Inv(Abs(RUNNING, cmd), phys))
      ensures engine == Engine(CARD, phys + 0x14, N, CMD3, 0) && pending
    {
      Do(s0, Abs(ENABLE_IRQ, before), phys, true);
      StartThird(before, s0);
      cmd := CMD3;
      StartTimer(cmd, s0);
      UnderWay(Abs(RUNNING, CMD3), phys);
    }

    /** Probe from the page on, run alone; `irq` is what request_irq returns. However slow the card is and whatever
        it had raised before, it is one of the runs of the machine; the text has gone to the card and back when it is
        printed and the interrupt requested, the rest of the page is untouched, and the third transfer is under way
        when probe returns. Unless 0x100 was left over alone, all that the machine keeps holds from then on. */
    method MyProbe(schedule1: seq<nat>, schedule2: seq<nat>, irq: int)
      returns (retval: int, printed: Option<seq<char>>, ghost cmd: Word)
      requires Before(Abs(STRCPY, 0), phys)
      modifies this, page
      ensures retval == irq && raised == old(raised) && page[..] == HELLO + HELLO + old(page[..])[REST..]
      ensures Reaches(old(Abs(STRCPY, 0)), phys, Abs(if retval == 0 then RUNNING else FAILED, cmd))
      ensures retval == 0 ==>
                && engine == Engine(CARD, phys + 0x14, N, CMD3, 0) && pending && cmd == CMD3
                && (raised != ALONE ==> Inv(Abs(RUNNING, cmd), phys))
      ensures retval != 0 ==> !Busy(engine.cmd) && !pending
      ensures printed.Some? <==> '\0' in old(page[..])[REST..]
      ensures printed.Some? ==> HELLO + HELLO <= printed.value
    {
      ghost var s0 := Abs(STRCPY, 0);
      cmd := PolledTransfers(schedule1, schedule2);
      printed := Print(0);
      PrintedIs(page[..], s0.page[REST..], printed);
      Do(s0, Abs(PUBLISH, cmd), phys, true);
      Do(s0, Abs(REQUEST_IRQ, cmd), phys, irq == 0);
      retval := irq;
      if retval != 0 {
        return;
      }
      cmd := Start(cmd, s0);
    }

    /** CMD is written back, and the tasklet initialised and scheduled. */
    method WriteAndSchedule(ghost at: int, ghost cmdVar: Word, cmd: Word)
      modifies this`engine, this`tasklet, this`inits, this`faults
      ensures Abs(at, cmdVar) == Finished(old(Abs(at, cmdVar)), cmd)
      ensures tasklet == Scheduled
    {
      faults := Faults(faults.reprogrammed || Busy(engine.cmd), faults.stray, faults.startedByHandler || Busy(cmd),
                       faults.reinitialised || tasklet.Scheduled?);
      engine := engine.(cmd := Stored(cmd), moved := 0);
      tasklet, inits := Ready, inits + 1;
      tasklet := Scheduled;
    }

    /** The part of the handler for the DMA interrupt. */
    method FinishDma(ghost at: int, ghost cmdVar: Word)
      modifies this`engine, this`tasklet, this`inits, this`faults
      ensures Abs(at, cmdVar) == Handled(old(Abs(at, cmdVar)).(handler := Handler.ReadCmd))
      ensures tasklet == Scheduled
    {
      var cmd := engine.cmd | ACKINT;
      ghost var s := Abs(at, cmdVar).(handler := Handler.ReadCmd);
      ReadCmdStep(s, cmd);
      HandledFromReadCmd(s, cmd);
      WriteAndSchedule(at, cmdVar, cmd);
    }

    /** The handler, run alone while probe is past request_irq, on whatever card: it is the machine's handler. It
        answers "mine" exactly when something was raised, acknowledges just that, and schedules the tasklet exactly
        when 0x100 was raised alone. */
    method MyHandler(ghost at: int, ghost cmdVar: Word) returns (mine: bool)
      requires ENABLE_IRQ <= at <= RUNNING
      modifies this`raised, this`engine, this`tasklet, this`inits, this`notice, this`faults
      ensures Abs(at, cmdVar) == Handled(Next(old(Abs(at, cmdVar)), phys, Interrupt))
      ensures mine <==> old(raised) != Interrupts(false, false)
      ensures raised == Interrupts(false, false)
      ensures old(raised) == ALONE ==> tasklet == Scheduled
      ensures old(raised) != ALONE ==> tasklet == old(tasklet) && engine == old(engine)
    {
      HandlerIs(Abs(at, cmdVar), phys);
      var interrupt := raised;
      if !interrupt.dma && !interrupt.tick {
        return false;
      }
      raised := Interrupts(false, false);
      notice := if interrupt.dma then Some(interrupt) else notice;
      if interrupt == ALONE {
        FinishDma(at, cmdVar);
      }
      mine := true;
    }

    /** The callback raises 0x1000 and arms the timer that brings it back; it is the machine's callback. */
    method RaiseIntr(ghost at: int, ghost cmdVar: Word)
      requires pending
      modifies this`raised, this`pending
      ensures Abs(at, cmdVar) == CalledBack(old(Abs(at, cmdVar)), phys)
      ensures pending && raised == Interrupts(old(raised).dma, true)
    {
      pending := false;
      raised := raised.(tick := true);
      pending := true;
    }

    /** The last transfer runs to its end and the handler is called, with or without the timer's interrupt in
        between: the text arrives in both cases, but the tasklet is scheduled only without it. */
    method ThirdTransferEnds(tick: bool) returns (mine: bool)
      requires Inv(Abs(RUNNING, CMD3), phys) && Busy(engine.cmd) && pending && raised == Interrupts(false, false)
      modifies this, page
      ensures mine && Inv(Abs(RUNNING, CMD3), phys) && page[REST..REST + N] == HELLO
      ensures raised == Interrupts(false, false) && tasklet == if tick then old(tasklet) else Scheduled
    {
      EngineKeepsData(Abs(RUNNING, CMD3), phys, N);
      EngineKeepsInv(Abs(RUNNING, CMD3), phys, N);
      CardRuns(RUNNING, CMD3, N);
      assert raised == Interrupts(true, false);
      if tick {
        CallbackSound(Abs(RUNNING, CMD3), phys);
        RaiseIntr(RUNNING, CMD3);
      }
      HandlerSound(Abs(RUNNING, CMD3), phys);
      mine := MyHandler(RUNNING, CMD3);
      SliceIs(page[..], REST);
      assert page[..][REST..REST + N] == page[REST..REST + N];
    }

    /** What the tasklet prints: the page from byte 20 on. Run early, by a 0x100 that was left over, that is whatever is
        there. Otherwise it begins with the text, and the print stays in the page exactly when something from byte
        30 on ends it, for the transfers have overwritten the zero of strcpy. */
    method TaskletFn(ghost at: int, ghost cmdVar: Word) returns (text: Option<seq<char>>)
      requires tasklet == Scheduled && page.Length == PAGE_SIZE
      modifies this`tasklet
      ensures Abs(at, cmdVar) == Next(old(Abs(at, cmdVar)), phys, RunTasklet) && tasklet == Ready
      ensures text.Some? <==> exists k | REST <= k < PAGE_SIZE :: page[k] == '\0'
      ensures text.Some? ==>
                && REST + |text.value| < PAGE_SIZE && text.value == page[REST..REST + |text.value|]
                && '\0' !in text.value && page[REST + |text.value|] == '\0'
      ensures Inv(old(Abs(at, cmdVar)), phys) ==> PrintsText(page[..], text)
    {
      ghost var s := Abs(at, cmdVar);
      text := Print(REST);
      if Inv(s, phys) {
        PrintIs(page[..], text);
      }
      tasklet := Ready;
    }
  }
}
