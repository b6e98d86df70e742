/** The DMA part of probe of one card: three transfers of ten bytes, two of them polled, the third with an
    interrupt whose handler schedules a tasklet that prints what arrived. CPU, DMA engine, timer
    callback, interrupt handler and tasklet take their steps in any order.

    Assumed of the card, after the comments in the driver: bit 0 of CMD starts a transfer of COUNT bytes
    from SRC to DST and reads as one until it is done; bits 1 to 3 and 4 to 6 select the memories, 2 the
    PCI side and 4 the card's own; bit 7 keeps the transfer from raising interrupt 0x100 at its end; bit 31
    acknowledges and is not stored. RAISED collects the interrupts until they are written to ACK. */
module DmaCard {
  import opened Kernel

  const HELLO: seq<char> := "Hello,man!"
  const N: nat := 10
  const PAGE_SIZE: nat := 4096
  const CARD: nat := 0x40000               // where the card's memory is used

  type Word = bv32

  const CMD1: Word := 1 | (2 << 1) | (4 << 4) | (1 << 7)
  const CMD2: Word := 1 | (4 << 1) | (2 << 4) | (1 << 7)
  const CMD3: Word := 1 | (4 << 1) | (2 << 4)
  const ACKINT: Word := 1 << 31

  function Busy(cmd: Word): bool { cmd & 1 != 0 }
  function Done(cmd: Word): Word { cmd & 0xffff_fffe }
  function From(cmd: Word): Word { (cmd >> 1) & 7 }
  function To(cmd: Word): Word { (cmd >> 4) & 7 }
  function Silent(cmd: Word): bool { cmd & 0x80 != 0 }
  function Stored(cmd: Word): Word { cmd & 0x7fff_ffff }

  /** How the three commands read: what is moved where, with or without an interrupt. */
  lemma Commands()
    ensures CMD1 == 0xc5 && CMD2 == 0xa9 && CMD3 == 0x29 && ACKINT == 0x8000_0000
    ensures Busy(CMD1) && From(CMD1) == 2 && To(CMD1) == 4 && Silent(CMD1) && Stored(CMD1) == CMD1
    ensures Busy(CMD2) && From(CMD2) == 4 && To(CMD2) == 2 && Silent(CMD2) && Stored(CMD2) == CMD2
    ensures Busy(CMD3) && From(CMD3) == 4 && To(CMD3) == 2 && !Silent(CMD3) && Stored(CMD3) == CMD3
    ensures !Busy(Done(CMD1)) && !Busy(Done(CMD2)) && !Busy(Done(CMD3))
    ensures Stored(Done(CMD3) | ACKINT) == Done(CMD3) && !Busy(Done(CMD3) | ACKINT)
  {
  }

  // The statements of probe from the allocated page on; a card is at the one that comes next.
  const STRCPY: int := 0
  const SRC1: int := 1
  const DST1: int := 2
  const COUNT1: int := 3
  const START1: int := 4
  const POLL1: int := 5
  const SRC2: int := 6
  const DST2: int := 7
  const COUNT2: int := 8
  const START2: int := 9
  const POLL2: int := 10
  const PUBLISH: int := 11         // set up the timer, set the fields of the help structure
  const REQUEST_IRQ: int := 12
  const ENABLE_IRQ: int := 13
  const SRC3: int := 14
  const DST3: int := 15
  const COUNT3: int := 16
  const START3: int := 17
  const START_TIMER: int := 18
  const RUNNING: int := 19
  const FAILED: int := 20          // request_irq failed

  /** The two interrupts: 0x100, a transfer is done, and 0x1000, raised by the timer. */
  datatype Interrupts = Interrupts(dma: bool, tick: bool)

  datatype Callback = Idle | Raise | Rearm | Return

  /** The handler's next step; one interrupt line runs one handler at a time. */
  datatype Handler = NoHandler | Read | Ack(i: Interrupts) | ReadCmd | WriteCmd(cmd: Word) | InitTasklet | Schedule

  datatype Tasklet = Raw | Ready | Scheduled

  datatype Engine = Engine(src: nat, dst: nat, count: nat, cmd: Word, moved: nat)

  /** Things that must not happen. */
  datatype Faults = Faults(reprogrammed: bool, stray: bool, startedByHandler: bool, reinitialised: bool)

  datatype State = State(
    at: int, cmdVar: Word, page: seq<char>, card: map<nat, char>, engine: Engine, raised: Interrupts,
    pending: bool, callback: Callback, handler: Handler, tasklet: Tasklet,
    inits: nat,                        // calls of tasklet_init so far
    notice: Option<Interrupts>,        // what the handler read when it last read 0x100
    faults: Faults)

  datatype Action =
    | Statement(ok: bool)
    | MoveByte
    | Complete
    | Fire
    | StepCallback
    | Interrupt
    | StepHandler
    | RunTasklet

  function Init(page: seq<char>, card: map<nat, char>, engine: Engine, raised: Interrupts): State {
    State(STRCPY, 0, page, card, engine, raised, false, Idle, NoHandler, Raw, 0, None,
          Faults(false, false, false, false))
  }

  predicate Enabled(s: State, a: Action) {
    match a
    case Statement(_) => 0 <= s.at < RUNNING
    case MoveByte => Busy(s.engine.cmd) && s.engine.moved < s.engine.count
    case Complete => Busy(s.engine.cmd) && s.engine.moved >= s.engine.count
    case Fire => s.pending && s.callback.Idle?
    case StepCallback => !s.callback.Idle?
    case Interrupt => ENABLE_IRQ <= s.at <= RUNNING && s.handler.NoHandler?
    case StepHandler => !s.handler.NoHandler?
    case RunTasklet => s.tasklet.Scheduled?
  }

  // --- the CPU --------------------------------------------------------------------------------------------

  /** A register may be set while no transfer is busy. */
  function Program(s: State, e: Engine): State {
    s.(at := s.at + 1, engine := e, faults := s.faults.(reprogrammed := s.faults.reprogrammed || Busy(s.engine.cmd)))
  }

  function SetCmd(s: State, cmd: Word): State {
    s.(engine := s.engine.(cmd := Stored(cmd), moved := 0),
       faults := s.faults.(reprogrammed := s.faults.reprogrammed || Busy(s.engine.cmd)))
  }

  function Start(s: State, cmd: Word): State { SetCmd(s, cmd).(at := s.at + 1, cmdVar := cmd) }

  function Poll(s: State): State {
    if Busy(s.cmdVar) then s.(cmdVar := s.engine.cmd) else s.(at := s.at + 1)
  }

  /** strcpy of the text and its final zero to the start of the page. */
  function CopyText(page: seq<char>): seq<char> {
    if |page| != PAGE_SIZE then page else Strcpy(page, HELLO)
  }

  predicate SetsRegister(at: int) {
    SRC1 <= at <= COUNT1 || SRC2 <= at <= COUNT2 || SRC3 <= at <= COUNT3
  }

  function Programmed(e: Engine, at: int, phys: nat): Engine {
    if at == SRC1 then e.(src := phys)
    else if at == SRC2 || at == SRC3 then e.(src := CARD)
    else if at == DST1 then e.(dst := CARD)
    else if at == DST2 then e.(dst := phys + 0xa)
    else if at == DST3 then e.(dst := phys + 0x14)
    else e.(count := N)
  }

  function RunStatement(s: State, phys: nat, ok: bool): State {
    if SetsRegister(s.at) then Program(s, Programmed(s.engine, s.at, phys))
    else if s.at == STRCPY then s.(at := s.at + 1, page := CopyText(s.page))
    else if s.at == START1 then Start(s, CMD1)
    else if s.at == START2 then Start(s, CMD2)
    else if s.at == START3 then Start(s, CMD3)
    else if s.at == POLL1 || s.at == POLL2 then Poll(s)
    else if s.at == REQUEST_IRQ then s.(at := if ok then ENABLE_IRQ else FAILED)
    else if s.at == START_TIMER then s.(at := s.at + 1, pending := true)
    else s.(at := s.at + 1)      // PUBLISH and ENABLE_IRQ touch nothing that is modelled here
  }

  // --- the DMA engine ---------------------------------------------------------------------------------------

  /** The byte at an address of one of the two memories; None is an access to nothing. */
  function Fetch(s: State, phys: nat, side: Word, a: nat): Option<char> {
    if side == 2 && phys <= a < phys + |s.page| then Some(s.page[a - phys])
    else if side == 4 && a in s.card then Some(s.card[a])
    else None
  }

  function Stray(s: State): State { s.(faults := s.faults.(stray := true)) }

  function Put(s: State, phys: nat, side: Word, a: nat, c: char): State {
    if side == 2 && phys <= a < phys + |s.page| then s.(page := s.page[a - phys := c])
    else if side == 4 then s.(card := s.card[a := c])
    else Stray(s)
  }

  function Move(s: State, phys: nat): State {
    var e := s.engine;
    var s1 := s.(engine := e.(moved := e.moved + 1));
    match Fetch(s, phys, From(e.cmd), e.src + e.moved)
    case None => Stray(s1)
    case Some(c) => Put(s1, phys, To(e.cmd), e.dst + e.moved, c)
  }

  // --- interrupt handler ----------------------------------------------------------------------------------------

  /** Steps a handler still takes. */
  function HandlerRank(h: Handler): nat {
    if h.Read? then 6
    else if h.Ack? then 5
    else if h.ReadCmd? then 4
    else if h.WriteCmd? then 3
    else if h.InitTasklet? then 2
    else if h.Schedule? then 1
    else 0
  }

  function RunHandler(s: State): (t: State)
    ensures !s.handler.NoHandler? ==> HandlerRank(t.handler) < HandlerRank(s.handler)
  {
    match s.handler
    case NoHandler => s
    case Read =>
      if !s.raised.dma && !s.raised.tick then s.(handler := NoHandler)
      else s.(handler := Ack(s.raised), notice := if s.raised.dma then Some(s.raised) else s.notice)
    case Ack(i) =>
      s.(raised := Interrupts(s.raised.dma && !i.dma, s.raised.tick && !i.tick),
         handler := if i == Interrupts(true, false) then ReadCmd else NoHandler)
    case ReadCmd => s.(handler := WriteCmd(s.engine.cmd | ACKINT))
    case WriteCmd(cmd) =>
      var s1 := SetCmd(s, cmd).(handler := InitTasklet);
      s1.(faults := s1.faults.(startedByHandler := s.faults.startedByHandler || Busy(cmd)))
    case InitTasklet =>
      s.(handler := Schedule, tasklet := Ready, inits := s.inits + 1,
         faults := s.faults.(reinitialised := s.faults.reinitialised || s.tasklet.Scheduled?))
    case Schedule => s.(handler := NoHandler, tasklet := Scheduled)
  }

  function Next(s: State, phys: nat, a: Action): State
    requires Enabled(s, a)
  {
    match a
    case Statement(ok) => RunStatement(s, phys, ok)
    case MoveByte => Move(s, phys)
    case Complete =>
      s.(engine := s.engine.(cmd := Done(s.engine.cmd)),
         raised := s.raised.(dma := s.raised.dma || !Silent(s.engine.cmd)))
    case Fire => s.(pending := false, callback := Raise)
    case StepCallback =>
      if s.callback.Raise? then s.(raised := s.raised.(tick := true), callback := Rearm)
      else if s.callback.Rearm? then s.(pending := true, callback := Return)
      else s.(callback := Idle)
    case Interrupt => s.(handler := Read)
    case StepHandler => RunHandler(s)
    case RunTasklet => s.(tasklet := Ready)
  }

  function After(s0: State, phys: nat, run: seq<Action>): Option<State> {
    if run == [] then Some(s0)
    else
      match After(s0, phys, run[..|run| - 1])
      case None => None
      case Some(s) => if Enabled(s, run[|run| - 1]) then Some(Next(s, phys, run[|run| - 1])) else None
  }

  lemma AfterLast(s0: State, phys: nat, run: seq<Action>, a: Action)
    ensures After(s0, phys, run + [a]) ==
            match After(s0, phys, run)
            case None => None
            case Some(s) => if Enabled(s, a) then Some(Next(s, phys, a)) else None
  {
    assert (run + [a])[..|run|] == run;
  }

  // --- the invariant ------------------------------------------------------------------------------------------------

  /** `n` bytes of the text have arrived at an offset of the page, or in the card's memory. */
  predicate OnPage(page: seq<char>, off: nat, n: nat) {
    |page| == PAGE_SIZE && off + N <= PAGE_SIZE && n <= N && forall i | 0 <= i < n :: page[off + i] == HELLO[i]
  }

  function CardByte(card: map<nat, char>, i: nat): Option<char> {
    if CARD + i in card then Some(card[CARD + i]) else None
  }

  predicate OnCard(card: map<nat, char>, n: nat) {
    n <= N && forall i | 0 <= i < n :: CardByte(card, i) == Some(HELLO[i])
  }

  /** One of the three transfers is under way or done; the first `Arrived` bytes are there. */
  predicate UnderWayOrDone(e: Engine, cmd: Word, src: nat, dst: nat) {
    e.src == src && e.dst == dst && e.count == N && ((e.cmd == cmd && e.moved <= N) || e.cmd == Done(cmd))
  }

  function Arrived(e: Engine): nat { if Busy(e.cmd) then e.moved else N }

  predicate EngineOk(s: State, phys: nat) {
    var e := s.engine;
    if s.at == POLL1 then UnderWayOrDone(e, CMD1, phys, CARD) && OnCard(s.card, Arrived(e))
    else if s.at == POLL2 then UnderWayOrDone(e, CMD2, CARD, phys + 10) && OnPage(s.page, 10, Arrived(e))
    else if START3 < s.at <= RUNNING then UnderWayOrDone(e, CMD3, CARD, phys + 20) && OnPage(s.page, 20, Arrived(e))
    else
      && !Busy(e.cmd)
      && (s.at == DST1 || s.at == COUNT1 || s.at == START1 ==> e.src == phys)
      && (s.at == COUNT1 || s.at == START1 ==> e.dst == CARD)
      && (s.at == DST2 || s.at == COUNT2 || s.at == START2 || s.at == DST3 || s.at == COUNT3 || s.at == START3 ==>
            e.src == CARD)
      && (s.at == COUNT2 || s.at == START2 ==> e.dst == phys + 10)
      && (s.at == COUNT3 || s.at == START3 ==> e.dst == phys + 20)
      && (s.at == START1 || s.at == START2 || s.at == START3 ==> e.count == N)
  }

  predicate CopiesOk(s: State) {
    && |s.page| == PAGE_SIZE
    && 0 <= s.at <= FAILED
    && (s.at > STRCPY ==> OnPage(s.page, 0, N))
    && (s.at > POLL1 ==> OnCard(s.card, N))
    && (s.at > POLL2 ==> OnPage(s.page, 10, N))
    && (s.at == POLL1 || s.at == POLL2 ==> Busy(s.cmdVar) || !Busy(s.engine.cmd))
  }

  /** The third transfer is done. */
  predicate AllThere(s: State) { START3 < s.at <= RUNNING && !Busy(s.engine.cmd) }

  /** 0x100 was left over from before probe, together with 0x1000, and no handler has acknowledged them. */
  predicate LeftOver(s: State) {
    s.raised.tick && (s.handler.Ack? ==> s.handler.i == Interrupts(true, true))
  }

  /** The interrupt 0x100 of the third transfer is either still to come, or raised, or dealt with. */
  predicate InterruptOk(s: State) {
    && (s.handler != NoHandler ==> ENABLE_IRQ <= s.at <= RUNNING)
    && (s.handler.Ack? ==> (s.handler.i.dma ==> s.raised.dma) && (s.handler.i.dma || s.handler.i.tick))
    && (s.raised.dma ==> s.inits == 0 && (AllThere(s) || LeftOver(s)))
    && (s.handler.ReadCmd? || s.handler.WriteCmd? || s.handler.InitTasklet? ==>
          AllThere(s) && !s.raised.dma && s.inits == 0)
    && (s.handler.WriteCmd? ==> s.handler.cmd == s.engine.cmd | ACKINT)
    && (s.handler.Schedule? ==> AllThere(s) && !s.raised.dma && s.inits == 1 && s.tasklet.Ready?)
    && (s.tasklet.Raw? <==> s.inits == 0)
    && s.inits <= 1
    && (s.inits == 1 ==> AllThere(s))
  }

  const ALONE: Interrupts := Interrupts(true, false)

  /** What the handler saw decides whether there will be a tasklet. */
  predicate NoticeOk(s: State) {
    && (s.notice.Some? ==> s.notice.value.dma)
    && (s.notice == Some(ALONE) ==> AllThere(s))
    && (s.handler.Ack? && s.handler.i.dma ==> s.notice == Some(s.handler.i))
    && (s.handler.ReadCmd? || s.handler.WriteCmd? || s.handler.InitTasklet? || s.inits == 1 ==> s.notice == Some(ALONE))
    && (s.notice == Some(ALONE) && s.inits == 0 ==>
          s.handler.ReadCmd? || s.handler.WriteCmd? || s.handler.InitTasklet? || s.handler == Ack(ALONE))
    && (AllThere(s) && !s.raised.dma ==> s.notice.Some?)
  }

  predicate DataOk(s: State, phys: nat) {
    EngineOk(s, phys) && CopiesOk(s) && s.faults == Faults(false, false, false, false)
  }

  predicate Inv(s: State, phys: nat) {
    DataOk(s, phys) && InterruptOk(s) && NoticeOk(s)
  }

  // --- each step keeps it ------------------------------------------------------------------------------------------

  /** A byte that arrives on the card extends what is there; one on the page, too, and spares the rest. */
  lemma ByteOnCard(card: map<nat, char>, n: nat)
    requires OnCard(card, n) && n < N
    ensures OnCard(card[CARD + n := HELLO[n]], n + 1)
  {
  }

  lemma ByteOnPage(page: seq<char>, off: nat, n: nat, other: nat)
    requires OnPage(page, off, n) && n < N && OnPage(page, other, N) && other + N <= off
    ensures OnPage(page[off + n := HELLO[n]], off, n + 1)
    ensures OnPage(page[off + n := HELLO[n]], other, N)
  {
  }

  lemma TextIsCopied(page: seq<char>)
    requires |page| == PAGE_SIZE
    ensures OnPage(CopyText(page), 0, N)
  {
    assert forall i | 0 <= i < N :: CopyText(page)[..N][i] == CopyText(page)[i];
  }

  lemma ProgramKeepsEngine(s: State, phys: nat, ok: bool)
    requires EngineOk(s, phys) && s.at !in {POLL1, POLL2, START1, START2, START3} && 0 <= s.at < RUNNING
    requires s.faults == Faults(false, false, false, false)
    ensures EngineOk(RunStatement(s, phys, ok), phys)
    ensures RunStatement(s, phys, ok).faults == Faults(false, false, false, false)
  {
  }

  lemma ProgramSparesMemory(s: State, phys: nat, ok: bool)
    requires STRCPY < s.at < RUNNING && s.at !in {POLL1, POLL2, START1, START2, START3}
    ensures var s1 := RunStatement(s, phys, ok);
            && s1.page == s.page && s1.card == s.card && s1.engine.cmd == s.engine.cmd && s1.cmdVar == s.cmdVar
            && (s1.at == s.at + 1 || (s.at == REQUEST_IRQ && s1.at == FAILED))
  {
  }

  lemma ProgramKeepsCopies(s: State, phys: nat, ok: bool)
    requires CopiesOk(s) && s.at !in {POLL1, POLL2, START1, START2, START3} && 0 <= s.at < RUNNING
    ensures CopiesOk(RunStatement(s, phys, ok))
  {
    if s.at == STRCPY {
      TextIsCopied(s.page);
    } else {
      ProgramSparesMemory(s, phys, ok);
    }
  }

  lemma StartKeepsData(s: State, phys: nat, ok: bool)
    requires DataOk(s, phys) && s.at in {POLL1, POLL2, START1, START2, START3}
    ensures DataOk(RunStatement(s, phys, ok), phys)
  {
    Commands();
  }

  lemma StatementKeepsData(s: State, phys: nat, ok: bool)
    requires DataOk(s, phys) && 0 <= s.at < RUNNING
    ensures DataOk(RunStatement(s, phys, ok), phys)
  {
    if s.at in {POLL1, POLL2, START1, START2, START3} {
      StartKeepsData(s, phys, ok);
    } else {
      ProgramKeepsEngine(s, phys, ok);
      ProgramKeepsCopies(s, phys, ok);
    }
  }

  /** The interrupt part of the invariant looks only at these parts of the state. */
  predicate SameInterrupts(s: State, t: State) {
    && t.handler == s.handler && t.raised == s.raised && t.inits == s.inits && t.tasklet == s.tasklet
    && t.notice == s.notice && t.callback == s.callback
  }

  lemma InterruptFrame(s: State, t: State)
    requires InterruptOk(s) && NoticeOk(s) && SameInterrupts(s, t) && AllThere(t) == AllThere(s)
    requires s.handler.WriteCmd? ==> t.engine.cmd == s.engine.cmd
    requires ENABLE_IRQ <= s.at <= RUNNING ==> ENABLE_IRQ <= t.at <= RUNNING
    ensures InterruptOk(t) && NoticeOk(t)
  {
  }

  lemma StatementLeavesInterrupts(s: State, phys: nat, ok: bool)
    ensures SameInterrupts(s, RunStatement(s, phys, ok))
  {
  }

  lemma StatementKeepsAllThere(s: State, phys: nat, ok: bool)
    requires DataOk(s, phys) && 0 <= s.at < RUNNING
    ensures AllThere(RunStatement(s, phys, ok)) == AllThere(s)
    ensures AllThere(s) ==> RunStatement(s, phys, ok).engine == s.engine
    ensures RunStatement(s, phys, ok).at == s.at || RunStatement(s, phys, ok).at == s.at + 1 ||
            (s.at == REQUEST_IRQ && RunStatement(s, phys, ok).at == FAILED)
  {
    Commands();
  }

  lemma StatementKeepsInv(s: State, phys: nat, ok: bool)
    requires Inv(s, phys) && 0 <= s.at < RUNNING
    ensures Inv(RunStatement(s, phys, ok), phys)
  {
    StatementKeepsData(s, phys, ok);
    StatementLeavesInterrupts(s, phys, ok);
    StatementKeepsAllThere(s, phys, ok);
    InterruptFrame(s, RunStatement(s, phys, ok));
  }

  /** Each byte goes from where the transfer reads to where it writes, and neither is astray. */
  lemma MoveIs(s: State, phys: nat)
    requires DataOk(s, phys) && Enabled(s, MoveByte)
    ensures var n := s.engine.moved;
            var s1 := Move(s, phys);
            && n < N
            && s1.engine == s.engine.(moved := n + 1)
            && s1 == s.(engine := s1.engine, page := s1.page, card := s1.card)
            && (s.at == POLL1 ==> s1.page == s.page && s1.card == s.card[CARD + n := HELLO[n]])
            && (s.at == POLL2 ==> s1.card == s.card && s1.page == s.page[10 + n := HELLO[n]])
            && (s.at != POLL1 && s.at != POLL2 ==>
                  START3 < s.at <= RUNNING && s1.card == s.card && s1.page == s.page[20 + n := HELLO[n]])
  {
    Commands();
    var n := s.engine.moved;
    if s.at == POLL1 {
      assert s.page[0 + n] == HELLO[n];
    } else {
      assert CardByte(s.card, n) == Some(HELLO[n]);
    }
  }

  lemma MoveKeepsData(s: State, phys: nat)
    requires DataOk(s, phys) && Enabled(s, MoveByte)
    ensures DataOk(Move(s, phys), phys)
  {
    Commands();
    MoveIs(s, phys);
    var n := s.engine.moved;
    if s.at == POLL1 {
      ByteOnCard(s.card, n);
    } else if s.at == POLL2 {
      ByteOnPage(s.page, 10, n, 0);
    } else {
      ByteOnPage(s.page, 20, n, 0);
      ByteOnPage(s.page, 20, n, 10);
    }
  }

  lemma MoveKeepsInv(s: State, phys: nat)
    requires Inv(s, phys) && Enabled(s, MoveByte)
    ensures Inv(Move(s, phys), phys)
  {
    MoveKeepsData(s, phys);
    MoveIs(s, phys);
    InterruptFrame(s, Move(s, phys));
  }

  lemma CompleteKeepsData(s: State, phys: nat)
    requires DataOk(s, phys) && Enabled(s, Complete)
    ensures var t := Next(s, phys, Complete);
            DataOk(t, phys) && !Busy(t.engine.cmd) && t.raised == s.raised.(dma := t.raised.dma)
    ensures Next(s, phys, Complete).raised.dma == (s.raised.dma || START3 < s.at)
  {
    Commands();
  }

  lemma CompleteKeepsInv(s: State, phys: nat)
    requires Inv(s, phys) && Enabled(s, Complete)
    ensures Inv(Next(s, phys, Complete), phys)
  {
    CompleteKeepsData(s, phys);
  }

  /** Only the write to CMD touches the engine, and where the invariant allows it, it changes nothing there. */
  lemma HandlerSparesEngine(s: State)
    requires !s.handler.WriteCmd? && (s.handler.InitTasklet? ==> !s.tasklet.Scheduled?)
    ensures var t := RunHandler(s);
            && t.at == s.at && t.cmdVar == s.cmdVar && t.page == s.page && t.card == s.card && t.engine == s.engine
            && t.faults == s.faults
  {
  }

  lemma AcknowledgeIs(s: State, phys: nat)
    requires Inv(s, phys) && s.handler.WriteCmd?
    ensures RunHandler(s) == s.(handler := InitTasklet, engine := s.engine.(moved := 0)) && !Busy(s.engine.cmd)
  {
    Commands();
    assert s.engine.cmd == Done(CMD3);
  }

  lemma HandlerKeepsData(s: State, phys: nat)
    requires Inv(s, phys) && Enabled(s, StepHandler)
    ensures DataOk(RunHandler(s), phys)
  {
    if s.handler.WriteCmd? {
      AcknowledgeIs(s, phys);
    } else {
      HandlerSparesEngine(s);
    }
  }

  lemma HandlerKeepsInterrupts(s: State, phys: nat)
    requires Inv(s, phys) && Enabled(s, StepHandler)
    ensures InterruptOk(RunHandler(s))
  {
    if s.handler.WriteCmd? {
      Commands();
      assert s.engine.cmd == Done(CMD3);
    } else {
      assert AllThere(RunHandler(s)) == AllThere(s);
    }
  }

  lemma HandlerKeepsNotice(s: State, phys: nat)
    requires Inv(s, phys) && Enabled(s, StepHandler)
    ensures NoticeOk(RunHandler(s))
  {
    Commands();
  }

  lemma TimerKeepsInterrupts(s: State, phys: nat, a: Action)
    requires InterruptOk(s) && NoticeOk(s) && Enabled(s, a) && (a.Fire? || a.StepCallback?)
    ensures InterruptOk(Next(s, phys, a)) && NoticeOk(Next(s, phys, a))
  {
    var t := Next(s, phys, a);
    assert t.at == s.at && t.engine == s.engine && t.handler == s.handler && t.tasklet == s.tasklet;
    assert t.raised == s.raised || t.raised == s.raised.(tick := true);
  }

  /** Timer, the start of a handler and the tasklet leave memory and engine alone. */
  lemma OthersKeepData(s: State, phys: nat, a: Action)
    requires DataOk(s, phys) && Enabled(s, a) && (a.Fire? || a.StepCallback? || a.Interrupt? || a.RunTasklet?)
    ensures DataOk(Next(s, phys, a), phys)
  {
    var s1 := Next(s, phys, a);
    assert s1.at == s.at && s1.cmdVar == s.cmdVar && s1.page == s.page && s1.card == s.card && s1.engine == s.engine;
  }

  lemma OthersKeepInterrupts(s: State, phys: nat, a: Action)
    requires InterruptOk(s) && NoticeOk(s) && Enabled(s, a) && (a.Interrupt? || a.RunTasklet?)
    ensures InterruptOk(Next(s, phys, a)) && NoticeOk(Next(s, phys, a))
  {
    var t := Next(s, phys, a);
    assert t.at == s.at && t.engine == s.engine && t.raised == s.raised && t.inits == s.inits && t.notice == s.notice;
  }

  lemma StepKeepsInv(s: State, phys: nat, a: Action)
    requires Inv(s, phys) && Enabled(s, a)
    ensures Inv(Next(s, phys, a), phys)
  {
    match a {
      case Statement(ok) => StatementKeepsInv(s, phys, ok);
      case MoveByte => MoveKeepsInv(s, phys);
      case Complete => CompleteKeepsInv(s, phys);
      case StepHandler =>
        HandlerKeepsData(s, phys);
        HandlerKeepsInterrupts(s, phys);
        HandlerKeepsNotice(s, phys);
      case _ =>
        OthersKeepData(s, phys, a);
        if a.Fire? || a.StepCallback? {
          TimerKeepsInterrupts(s, phys, a);
        } else {
          OthersKeepInterrupts(s, phys, a);
        }
    }
  }

  /** A card before probe: any memory, any registers, also any interrupt still raised, but no transfer busy; the page
      lies below 4 GB. */
  predicate Before(s0: State, phys: nat) {
    && |s0.page| == PAGE_SIZE && phys + PAGE_SIZE <= 0x1_0000_0000 && !Busy(s0.engine.cmd)
    && s0 == Init(s0.page, s0.card, s0.engine, s0.raised)
  }

  lemma {:induction false} RunKeepsInv(s0: State, phys: nat, run: seq<Action>)
    requires Before(s0, phys) && s0.raised != ALONE && After(s0, phys, run).Some?
    ensures Inv(After(s0, phys, run).value, phys)
    decreases |run|
  {
    if run != [] {
      RunKeepsInv(s0, phys, run[..|run| - 1]);
      StepKeepsInv(After(s0, phys, run[..|run| - 1]).value, phys, run[|run| - 1]);
    }
  }

  // --- the theorems --------------------------------------------------------------------------------------

  lemma SliceIs(page: seq<char>, off: nat)
    requires OnPage(page, off, N)
    ensures page[off..off + N] == HELLO
  {
    assert |HELLO| == N;
  }

  /** When the tasklet may run, the last transfer is done and the first three groups of ten bytes of the page are the
      same text. */
  predicate InTime(s: State) {
    s.tasklet.Scheduled? ==>
      AllThere(s) && |s.page| == PAGE_SIZE && s.page[0..10] == s.page[10..20] == s.page[20..30] == "Hello,man!"
  }

  /** No register has been programmed while a transfer was busy, no byte moved from or to anywhere else, the
      handler's write to CMD has started nothing, and the tasklet was initialised at most once, never
      while it was scheduled. */
  predicate NoFaults(s: State) {
    s.faults == Faults(false, false, false, false) && s.inits <= 1
  }

  /** When the last transfer is done, its interrupt acknowledged and no handler under way, the tasklet has been
      scheduled if and only if the handler read 0x100 alone; read together with the timer's 0x1000 it is lost. */
  predicate NoticeDecides(s: State) {
    AllThere(s) && !s.raised.dma && s.handler.NoHandler? ==>
      s.notice.Some? && s.notice.value.dma && (s.inits == 1 <==> s.notice == Some(ALONE)) && s.inits <= 1
  }

  /** Every interleaving of CPU, engine, timer, handler and tasklet keeps `p`. */
  ghost predicate Always(s0: State, phys: nat, p: State -> bool) {
    forall run :: After(s0, phys, run).Some? ==> p(After(s0, phys, run).value)
  }

  lemma SoundIsInTime(s: State, phys: nat)
    requires Inv(s, phys)
    ensures InTime(s)
  {
    if s.tasklet.Scheduled? {
      SliceIs(s.page, 0);
      SliceIs(s.page, 10);
      SliceIs(s.page, 20);
    }
  }

  lemma TaskletSeesThreeCopies(s0: State, phys: nat, run: seq<Action>)
    requires Before(s0, phys) && s0.raised != ALONE && After(s0, phys, run).Some?
    ensures InTime(After(s0, phys, run).value)
  {
    RunKeepsInv(s0, phys, run);
    SoundIsInTime(After(s0, phys, run).value, phys);
  }

  lemma NothingGoesAstray(s0: State, phys: nat, run: seq<Action>)
    requires Before(s0, phys) && s0.raised != ALONE && After(s0, phys, run).Some?
    ensures NoFaults(After(s0, phys, run).value)
  {
    RunKeepsInv(s0, phys, run);
  }

  lemma TaskletIffReadAlone(s0: State, phys: nat, run: seq<Action>)
    requires Before(s0, phys) && s0.raised != ALONE && After(s0, phys, run).Some?
    ensures NoticeDecides(After(s0, phys, run).value)
  {
    RunKeepsInv(s0, phys, run);
  }

  /** From a card without 0x100 raised alone there is never the occasion for any of the faults: the registers are
      set and the commands written only while no transfer is busy, by the handler too, whose command starts none;
      every byte goes between the page and the card's memory at 0x40000; and the tasklet is not initialised
      while scheduled. */
  lemma NothingCanGoAstray(s0: State, phys: nat, run: seq<Action>)
    requires Before(s0, phys) && s0.raised != ALONE && After(s0, phys, run).Some?
    ensures var s := After(s0, phys, run).value;
            && (SRC1 <= s.at <= START1 || SRC2 <= s.at <= START2 || SRC3 <= s.at <= START3 ==> !Busy(s.engine.cmd))
            && (s.handler.WriteCmd? ==> !Busy(s.engine.cmd) && !Busy(s.handler.cmd))
            && (s.handler.InitTasklet? ==> !s.tasklet.Scheduled?)
            && (Enabled(s, MoveByte) ==> BetweenMemories(s, phys))
  {
    RunKeepsInv(s0, phys, run);
    var s := After(s0, phys, run).value;
    HandlerWritesIdle(s, phys);
    MovesBetweenMemories(s, phys);
  }

  /** The next byte comes from the page and goes to the card, or the other way. */
  predicate BetweenMemories(s: State, phys: nat) {
    var e := s.engine;
    var from, to := e.src + e.moved, e.dst + e.moved;
    if (e.cmd >> 1) & 7 == 2 then phys <= from < phys + 10 && (e.cmd >> 4) & 7 == 4 && 0x40000 <= to < 0x4000a
    else
      && (e.cmd >> 1) & 7 == 4 && 0x40000 <= from < 0x4000a
      && (e.cmd >> 4) & 7 == 2 && phys + 10 <= to < phys + 30
  }

  lemma HandlerWritesIdle(s: State, phys: nat)
    requires Inv(s, phys)
    ensures s.handler.WriteCmd? ==> !Busy(s.engine.cmd) && !Busy(s.handler.cmd)
  {
    Commands();
    if s.handler.WriteCmd? {
      assert s.engine.cmd == Done(CMD3);
    }
  }

  lemma MovesBetweenMemories(s: State, phys: nat)
    requires Inv(s, phys)
    ensures Enabled(s, MoveByte) ==> BetweenMemories(s, phys)
  {
    Commands();
  }
}
