/** One card of the timer driver: probe and remove run statement by statement while the self-rearming timer
    callback and any number of runs of the shared interrupt handler go on between their statements.
    A card whose probe failed may be probed again; what the failed one took is out of reach for ever.
    An access to something that is not there sets `crashed`. The kernel's promises are steps
    that wait: del_timer_sync for the callback, free_irq for the handlers. */
module TimerCard {
  import opened Kernel

  // The statements of probe and of remove, numbered in their order; a card is at the one that comes next.
  const UNBOUND: int := 0               // no driver on the card
  const ENABLE_DEVICE: int := 1
  const REQUEST_REGION: int := 2
  const MAP_BAR: int := 3
  const ALLOC_TIMER: int := 4
  const ALLOC_HELP: int := 5
  const SETUP_TIMER: int := 6
  const SET_VIRT: int := 7
  const SET_TIMER: int := 8
  const SET_DRVDATA: int := 9
  const REQUEST_IRQ: int := 10
  const ENABLE_IRQ: int := 11
  const START_TIMER: int := 12
  const RUNNING: int := 13              // probe has returned 0
  const DEL_TIMER: int := 14            // remove: waits for the callback
  const FREE_TIMER: int := 15
  const UNLINK_IRQ: int := 16           // free_irq: no new runs of the handler
  const WAIT_IRQ: int := 17             // free_irq: waits for the handlers under way
  const UNMAP_BAR: int := 18
  const RELEASE_REGION: int := 19
  const DISABLE_DEVICE: int := 20
  const FREE_HELP: int := 21
  const LEAKED: int := 22               // a probe failed: it returned without unwinding

  /** What the latest probe has taken and published: the allocations, the fields of the help structure that are set,
      whether the device's data lead to it, and whether the handler is registered. */
  datatype Card = Card(enabled: bool, region: bool, bar: bool, timer: bool, help: bool, setup: bool,
                       virt: bool, link: bool, drvdata: bool, irq: bool)

  /** The timer callback: raise the interrupt, arm the timer again, return. */
  datatype Callback = Idle | Raise | Rearm | Return

  /** A run of the interrupt handler: load p->virt, read the state, acknowledge. */
  datatype Handler = LoadVirt | ReadRaised | Ack(state: bool)

  datatype State = State(at: int, card: Card, pending: bool, callback: Callback, handlers: map<nat, Handler>,
                         raised: bool, crashed: bool)

  datatype Action =
    | Probe
    | Remove
    | Statement(ok: bool)       // the next statement; `ok` is whether a call that can fail succeeds
    | Fire                      // the timer expires
    | StepCallback
    | Interrupt(h: nat)         // the shared line calls the handler, for whatever reason
    | StepHandler(h: nat)

  const NOTHING: Card := Card(false, false, false, false, false, false, false, false, false, false)
  const INIT: State := State(UNBOUND, NOTHING, false, Idle, map[], false, false)

  predicate Enabled(s: State, a: Action) {
    match a
    case Probe => s.at == UNBOUND || s.at == LEAKED
    case Remove => s.at == RUNNING
    case Statement(_) =>
      && s.at !in {UNBOUND, RUNNING, LEAKED}
      && (s.at == DEL_TIMER ==> s.callback.Idle?)
      && (s.at == WAIT_IRQ ==> s.handlers == map[])
    case Fire => s.pending && s.callback.Idle?
    case StepCallback => !s.callback.Idle?
    case Interrupt(h) => s.card.irq && h !in s.handlers
    case StepHandler(h) => h in s.handlers
  }

  function Crash(s: State, bad: bool): State { s.(crashed := s.crashed || bad) }

  function Goto(s: State, at: int, card: Card): State { s.(at := at, card := card) }

  /** A statement that can fail goes on to `next` or leaves what there is behind. */
  function Try(s: State, ok: bool, next: int, card: Card): State {
    if ok then Goto(s, next, card) else s.(at := LEAKED)
  }

  function RunStatement(s: State, ok: bool): State {
    if s.at < SETUP_TIMER then Acquire(s, ok)
    else if s.at < RUNNING then Publish(s, ok)
    else if s.at < UNMAP_BAR then Quiesce(s)
    else GiveBack(s)
  }

  /** Probe takes the device and memory. */
  function Acquire(s: State, ok: bool): State {
    var c := s.card;
    if s.at == ENABLE_DEVICE then Try(s, ok, REQUEST_REGION, c.(enabled := true))
    else if s.at == REQUEST_REGION then Try(s, ok, MAP_BAR, c.(region := true))
    else if s.at == MAP_BAR then Try(s, ok, ALLOC_TIMER, c.(bar := true))
    else if s.at == ALLOC_TIMER then Try(s, ok, ALLOC_HELP, c.(timer := true))
    else if s.at == ALLOC_HELP then Try(s, ok, SETUP_TIMER, c.(help := true))
    else s
  }

  /** Probe sets the fields and lets the interrupts and the timer run. */
  function Publish(s: State, ok: bool): State {
    var c := s.card;
    if s.at == SETUP_TIMER then Goto(Crash(s, !c.timer), SET_VIRT, c.(setup := true))
    else if s.at == SET_VIRT then Goto(Crash(s, !c.help), SET_TIMER, c.(virt := true))
    else if s.at == SET_TIMER then Goto(Crash(s, !c.help), SET_DRVDATA, c.(link := true))
    else if s.at == SET_DRVDATA then Goto(s, REQUEST_IRQ, c.(drvdata := true))
    else if s.at == REQUEST_IRQ then Try(s, ok, ENABLE_IRQ, c.(irq := true))
    else if s.at == ENABLE_IRQ then Goto(Crash(s, !c.bar), START_TIMER, c)
    else if s.at == START_TIMER then Goto(Crash(s, !c.timer || !c.setup), RUNNING, c).(pending := true)
    else s
  }

  /** Remove stops the timer and the interrupts. */
  function Quiesce(s: State): State {
    var c := s.card;
    if s.at == DEL_TIMER then
      Goto(Crash(s, !c.drvdata || !c.help || !c.link || !c.timer), FREE_TIMER, c).(pending := false)
    else if s.at == FREE_TIMER then
      Goto(Crash(s, !c.help || !c.link || !c.timer), UNLINK_IRQ, c.(timer := false, setup := false))
    else if s.at == UNLINK_IRQ then Goto(Crash(s, !c.irq), WAIT_IRQ, c.(irq := false))
    else if s.at == WAIT_IRQ then Goto(s, UNMAP_BAR, c)
    else s
  }

  /** Remove gives back the device and memory. */
  function GiveBack(s: State): State {
    var c := s.card;
    if s.at == UNMAP_BAR then
      Goto(Crash(s, !c.help || !c.virt || !c.bar), RELEASE_REGION, c.(bar := false))
    else if s.at == RELEASE_REGION then Goto(Crash(s, !c.region), DISABLE_DEVICE, c.(region := false))
    else if s.at == DISABLE_DEVICE then Goto(Crash(s, !c.enabled), FREE_HELP, c.(enabled := false))
    else if s.at == FREE_HELP then
      Goto(Crash(s, !c.help), UNBOUND, c.(help := false, virt := false, link := false, drvdata := false))
    else s
  }

  function Next(s: State, a: Action): State
    requires Enabled(s, a)
  {
    var c := s.card;
    match a
    case Probe => Goto(s, ENABLE_DEVICE, NOTHING)
    case Remove => Goto(s, DEL_TIMER, c)
    case Statement(ok) => RunStatement(s, ok)
    case Fire => s.(pending := false, callback := Raise)
    case StepCallback =>
      if s.callback.Raise? then
        Crash(s, !c.help || !c.virt || !c.bar).(raised := true, callback := Rearm)
      else if s.callback.Rearm? then
        Crash(s, !c.help || !c.link || !c.timer || !c.setup).(pending := true, callback := Return)
      else s.(callback := Idle)
    case Interrupt(h) => s.(handlers := s.handlers[h := LoadVirt])
    case StepHandler(h) =>
      match s.handlers[h]
      case LoadVirt => Crash(s, !c.help || !c.virt).(handlers := s.handlers[h := ReadRaised])
      case ReadRaised =>
        var s1 := Crash(s, !c.bar);
        if s.raised then s1.(handlers := s.handlers[h := Ack(true)]) else s1.(handlers := s.handlers - {h})
      case Ack(_) => Crash(s, !c.bar).(raised := false, handlers := s.handlers - {h})
  }

  function After(run: seq<Action>): Option<State> {
    if run == [] then Some(INIT)
    else
      match After(run[..|run| - 1])
      case None => None
      case Some(s) => if Enabled(s, run[|run| - 1]) then Some(Next(s, run[|run| - 1])) else None
  }

  // --- the invariant ----------------------------------------------------------------------------------------

  /** Each thing is there from one statement up to another. */
  predicate CardOk(p: int, c: Card) {
    && (c.enabled <==> 2 <= p <= 20)
    && (c.region <==> 3 <= p <= 19)
    && (c.bar <==> 4 <= p <= 18)
    && (c.timer <==> 5 <= p <= 15)
    && (c.help <==> 6 <= p <= 21)
    && (c.setup <==> 7 <= p <= 15)
    && (c.virt <==> 8 <= p <= 21)
    && (c.link <==> 9 <= p <= 21)
    && (c.drvdata <==> 10 <= p <= 21)
    && (c.irq <==> 11 <= p <= 16)
  }

  /** The timer is armed, or its callback is under way and will arm it. */
  predicate Armed(s: State) { s.pending || s.callback.Raise? || s.callback.Rearm? }

  predicate Inv(s: State) {
    && !s.crashed
    && (if s.at == LEAKED then !s.card.irq else UNBOUND <= s.at < LEAKED && CardOk(s.at, s.card))
    && (s.pending || !s.callback.Idle? ==> RUNNING <= s.at <= DEL_TIMER)
    && (s.handlers != map[] ==> ENABLE_IRQ <= s.at <= WAIT_IRQ)
    && (RUNNING <= s.at <= DEL_TIMER ==> Armed(s))
  }

  lemma AcquireKeepsInv(s: State, ok: bool)
    requires Inv(s) && UNBOUND < s.at < SETUP_TIMER
    ensures Inv(Acquire(s, ok))
  {
  }

  lemma PublishKeepsInv(s: State, ok: bool)
    requires Inv(s) && SETUP_TIMER <= s.at < RUNNING
    ensures Inv(Publish(s, ok))
  {
  }

  lemma QuiesceKeepsInv(s: State)
    requires Inv(s) && RUNNING < s.at < UNMAP_BAR && Enabled(s, Statement(true))
    ensures Inv(Quiesce(s))
  {
  }

  lemma GiveBackKeepsInv(s: State)
    requires Inv(s) && UNMAP_BAR <= s.at < LEAKED
    ensures Inv(GiveBack(s))
  {
  }

  lemma StatementKeepsInv(s: State, ok: bool)
    requires Inv(s) && Enabled(s, Statement(ok))
    ensures Inv(RunStatement(s, ok))
  {
    if s.at < SETUP_TIMER {
      AcquireKeepsInv(s, ok);
    } else if s.at < RUNNING {
      PublishKeepsInv(s, ok);
    } else if s.at < UNMAP_BAR {
      QuiesceKeepsInv(s);
    } else {
      GiveBackKeepsInv(s);
    }
  }

  lemma CallbacksKeepInv(s: State, a: Action)
    requires Inv(s) && Enabled(s, a) && (a.Fire? || a.StepCallback? || a.Interrupt? || a.StepHandler?)
    ensures Inv(Next(s, a))
  {
  }

  lemma StepKeepsInv(s: State, a: Action)
    requires Inv(s) && Enabled(s, a)
    ensures Inv(Next(s, a))
  {
    match a {
      case Probe =>
      case Remove =>
      case Statement(ok) => StatementKeepsInv(s, ok);
      case _ => CallbacksKeepInv(s, a);
    }
  }

  lemma {:induction false} RunKeepsInv(run: seq<Action>)
    requires After(run).Some?
    ensures Inv(After(run).value)
    decreases |run|
  {
    if run != [] {
      RunKeepsInv(run[..|run| - 1]);
      StepKeepsInv(After(run[..|run| - 1]).value, run[|run| - 1]);
    }
  }

  // --- the theorems ---------------------------------------------------------------------------------------------

  /** In every interleaving, over any number of probes and removes, nobody uses a freed timer, an unmapped
      BAR or a freed help structure, nothing is freed twice, and no callback or handler runs before
      the fields it reads are set. */
  lemma NothingIsUsedAfterItsEnd(run: seq<Action>)
    requires After(run).Some?
    ensures var s := After(run).value;
            && !s.crashed
            && (!s.callback.Idle? ==> s.card.help && s.card.virt && s.card.link && s.card.bar && s.card.timer)
            && (s.handlers != map[] ==> s.card.help && s.card.virt && s.card.bar)
  {
    RunKeepsInv(run);
  }

  /** Nor does a statement of probe or remove use, or give back, what is not there. */
  lemma StatementsFindWhatTheyUse(run: seq<Action>)
    requires After(run).Some?
    ensures var s := After(run).value;
            var c := s.card;
            && (s.at == SETUP_TIMER ==> c.timer)
            && (s.at == SET_VIRT || s.at == SET_TIMER ==> c.help)
            && (s.at == ENABLE_IRQ ==> c.bar)
            && (s.at == START_TIMER ==> c.timer && c.setup)
            && (s.at == DEL_TIMER || s.at == FREE_TIMER ==> c.drvdata && c.help && c.link && c.timer)
            && (s.at == UNLINK_IRQ ==> c.irq)
            && (s.at == UNMAP_BAR ==> c.help && c.virt && c.bar)
            && (s.at == RELEASE_REGION ==> c.region)
            && (s.at == DISABLE_DEVICE ==> c.enabled)
            && (s.at == FREE_HELP ==> c.help)
  {
    RunKeepsInv(run);
  }

  /** The timer is armed by the start of it or by its callback, and until it expires or is deleted; every expiry is one
      callback. The card's interrupt is raised by the callback and until a handler that has seen it acknowledges it. */
  lemma TimerAndInterrupt(s: State, a: Action)
    requires Inv(s) && Enabled(s, a)
    ensures var t := Next(s, a);
            && (t.pending <==>
                  (s.at == START_TIMER && a.Statement?) || (a.StepCallback? && s.callback.Rearm?) ||
                  (s.pending && !a.Fire? && !(s.at == DEL_TIMER && a.Statement?)))
            && (a.Fire? ==> t.callback.Raise?)
            && (t.raised <==>
                  (a.StepCallback? && s.callback.Raise?) || (s.raised && !(a.StepHandler? && s.handlers[a.h].Ack?)))
  {
    StepKeepsInv(s, a);
    if a.Statement? {
      StatementTimes(s, a.ok);
    }
  }

  lemma StatementTimes(s: State, ok: bool)
    requires s.at !in {UNBOUND, RUNNING, LEAKED} && 0 <= s.at <= LEAKED
    ensures var t := RunStatement(s, ok);
            t.raised == s.raised && (t.pending <==> s.at == START_TIMER || (s.pending && s.at != DEL_TIMER))
  {
  }

  /** From the return of a probe that succeeds until remove deletes the timer, it never stops: it is armed or its
      callback is on the way to arm it, and a callback that has armed it has raised the interrupt before. */
  lemma TimerNeverStops(run: seq<Action>)
    requires After(run).Some? && RUNNING <= After(run).value.at <= DEL_TIMER
    ensures var s := After(run).value;
            && (s.pending || s.callback.Raise? || s.callback.Rearm?)
            && (s.callback.Raise? ==> Next(s, StepCallback).raised && Next(s, StepCallback).callback.Rearm?)
            && (s.callback.Rearm? ==> Next(s, StepCallback).pending)
  {
    RunKeepsInv(run);
  }

  /** Once remove is past del_timer_sync no callback runs or is due, and once past free_irq no handler
      runs; a card that is unbound holds nothing and nothing is under way. */
  lemma TeardownIsFinal(run: seq<Action>)
    requires After(run).Some?
    ensures var s := After(run).value;
            && (s.at >= FREE_TIMER ==> !s.pending && s.callback.Idle?)
            && (s.at >= UNMAP_BAR ==> s.handlers == map[])
            && (s.at == UNBOUND ==> s.card == NOTHING && !s.pending && s.callback.Idle? && s.handlers == map[])
  {
    RunKeepsInv(run);
  }

  // --- remove comes to its end ----------------------------------------------------------------------------------

  /** Steps that a callback and a handler under way still take at most. */
  function CallbackRank(c: Callback): nat { if c.Raise? then 3 else if c.Rearm? then 2 else if c.Return? then 1 else 0 }
  function HandlerRank(h: Handler): nat { if h.LoadVirt? then 3 else if h.ReadRaised? then 2 else 1 }

  function AtLeast(hs: map<nat, Handler>, n: nat): set<nat> { set h | h in hs && HandlerRank(hs[h]) >= n }

  /** The steps of all handlers under way: one for each step that each can still take. */
  function HandlerWork(hs: map<nat, Handler>): nat { |AtLeast(hs, 1)| + |AtLeast(hs, 2)| + |AtLeast(hs, 3)| }

  lemma NoWorkIffNoHandlers(hs: map<nat, Handler>)
    ensures HandlerWork(hs) == 0 <==> hs == map[]
  {
    if hs != map[] {
      var h :| h in hs;
      assert h in AtLeast(hs, 1);
    }
  }

  lemma LevelShrinks(hs: map<nat, Handler>, hs': map<nat, Handler>, h: nat, n: nat)
    requires forall k | k in hs' && k != h :: k in hs && hs'[k] == hs[k]
    requires h in hs && (h in hs' ==> HandlerRank(hs'[h]) < HandlerRank(hs[h]))
    ensures |AtLeast(hs', n)| <= |AtLeast(hs, n)|
    ensures h in AtLeast(hs, n) && h !in AtLeast(hs', n) ==> |AtLeast(hs', n)| < |AtLeast(hs, n)|
  {
    var a, a' := AtLeast(hs, n), AtLeast(hs', n);
    assert a' <= a;
    assert a == a' + (a - a');
    if h in a && h !in a' {
      assert h in a - a';
    }
  }

  /** A handler that moves on or ends lowers the sum. */
  lemma HandlerWorkFalls(hs: map<nat, Handler>, hs': map<nat, Handler>, h: nat)
    requires h in hs && hs' - {h} == hs - {h}
    requires h in hs' ==> HandlerRank(hs'[h]) < HandlerRank(hs[h])
    ensures HandlerWork(hs') < HandlerWork(hs)
  {
    forall k | k in hs' && k != h ensures k in hs && hs'[k] == hs[k] {
      assert k in hs' - {h};
    }
    var r := HandlerRank(hs[h]);
    LevelShrinks(hs, hs', h, 1);
    LevelShrinks(hs, hs', h, 2);
    LevelShrinks(hs, hs', h, 3);
    assert h in AtLeast(hs, r) && h !in AtLeast(hs', r);
  }

  lemma LastStep(before: seq<Action>, init: seq<Action>, a: Action)
    requires After(before + (init + [a])).Some?
    ensures After(before + init).Some? && Enabled(After(before + init).value, a)
    ensures After(before + (init + [a])).value == Next(After(before + init).value, a)
  {
    var run := before + (init + [a]);
    assert run[..|run| - 1] == before + init;
  }

  lemma WaitingStep(s: State, a: Action)
    requires Inv(s) && s.at == WAIT_IRQ && Enabled(s, a) && !a.Statement?
    ensures a.StepHandler? && Next(s, a).at == WAIT_IRQ
    ensures HandlerWork(Next(s, a).handlers) < HandlerWork(s.handlers)
  {
    assert a.StepHandler?;
    var hs, hs' := s.handlers, Next(s, a).handlers;
    assert hs' - {a.h} == hs - {a.h};
    HandlerWorkFalls(hs, hs', a.h);
  }

  lemma {:induction false} WaitShortens(before: seq<Action>, window: seq<Action>)
    requires After(before).Some? && After(before).value.at == WAIT_IRQ
    requires After(before + window).Some? && forall i | 0 <= i < |window| :: !window[i].Statement?
    ensures After(before + window).value.at == WAIT_IRQ
    ensures |window| + HandlerWork(After(before + window).value.handlers) <= HandlerWork(After(before).value.handlers)
    decreases |window|
  {
    if window == [] {
      assert before + window == before;
    } else {
      var init, a := window[..|window| - 1], window[|window| - 1];
      assert window == init + [a];
      LastStep(before, init, a);
      WaitShortens(before, init);
      RunKeepsInv(before + init);
      WaitingStep(After(before + init).value, a);
    }
  }

  /** While free_irq waits, no new handler begins; every step of anybody but remove is one of a handler under way, and
      there are at most as many of them as the handlers have left. Then remove can go on. */
  lemma FreeIrqWaitsBoundedly(before: seq<Action>, window: seq<Action>)
    requires After(before).Some? && After(before).value.at == WAIT_IRQ
    requires After(before + window).Some? && forall i | 0 <= i < |window| :: !window[i].Statement?
    ensures var s, s' := After(before).value, After(before + window).value;
            && s'.at == WAIT_IRQ
            && |window| + HandlerWork(s'.handlers) <= HandlerWork(s.handlers)
            && (HandlerWork(s'.handlers) == 0 <==> Enabled(s', Statement(true)))
  {
    WaitShortens(before, window);
    NoWorkIffNoHandlers(After(before + window).value.handlers);
  }

  function CallbackSteps(run: seq<Action>): nat { Count(run, (a: Action) => a.StepCallback?) }

  predicate MustWait(run: seq<Action>) {
    After(run).Some? && !Enabled(After(run).value, Statement(true))
  }

  /** Remove has to wait from the end of `before` to the end of the window. */
  predicate HasToWait(before: seq<Action>, window: seq<Action>) {
    forall k | 0 <= k < |window| :: MustWait(before + window[..k])
  }

  lemma ShorterWait(before: seq<Action>, window: seq<Action>)
    requires HasToWait(before, window) && window != []
    ensures HasToWait(before, window[..|window| - 1])
  {
    var init := window[..|window| - 1];
    forall k | 0 <= k < |init|
      ensures MustWait(before + init[..k])
    {
      assert init[..k] == window[..k];
    }
  }

  lemma CallbackStep(s: State, a: Action)
    requires s.at == DEL_TIMER && !Enabled(s, Statement(true)) && Enabled(s, a)
    ensures Next(s, a).at == DEL_TIMER
    ensures CallbackRank(Next(s, a).callback) == CallbackRank(s.callback) - (if a.StepCallback? then 1 else 0)
  {
  }

  lemma CountLast(window: seq<Action>)
    requires window != []
    ensures CallbackSteps(window) ==
            CallbackSteps(window[..|window| - 1]) + (if window[|window| - 1].StepCallback? then 1 else 0)
  {
  }

  /** While del_timer_sync waits, only the callback under way goes on, although it arms the timer again: it is done
      after at most three steps, before the timer can expire once more, and then remove can go on. */
  lemma {:induction false} DelTimerWaitsForOneCallback(before: seq<Action>, window: seq<Action>)
    requires After(before).Some? && After(before).value.at == DEL_TIMER
    requires After(before + window).Some? && HasToWait(before, window)
    ensures var s, s' := After(before).value, After(before + window).value;
            && s'.at == DEL_TIMER
            && CallbackSteps(window) + CallbackRank(s'.callback) == CallbackRank(s.callback) <= 3
            && (CallbackRank(s'.callback) == 0 <==> Enabled(s', Statement(true)))
    decreases |window|
  {
    if window == [] {
      assert before + window == before;
    } else {
      var last := |window| - 1;
      ShorterWait(before, window);
      assert MustWait(before + window[..last]);
      assert window == window[..last] + [window[last]];
      LastStep(before, window[..last], window[last]);
      DelTimerWaitsForOneCallback(before, window[..last]);
      CountLast(window);
      CallbackStep(After(before + window[..last]).value, window[last]);
    }
  }
}
