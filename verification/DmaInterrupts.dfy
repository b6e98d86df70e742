/** The interrupts of the DMA card over whole runs, on whatever card: what raises them, what takes them back, that
    none is lost to a handler that has not read it, that the timer goes on raising its own, and how often the
    tasklet runs. */
module DmaInterrupts {
  import opened Kernel
  import opened DmaCard

  // --- raising and acknowledging --------------------------------------------------------------------------

  /** The action is the write that raises 0x1000, the end of a transfer that is not silent, or the acknowledgement of
      what a handler has read. */
  predicate RaisesTick(s: State, a: Action) { a.StepCallback? && s.callback.Raise? }
  predicate RaisesDma(s: State, a: Action) { a.Complete? && s.engine.cmd & 0x80 == 0 }
  predicate Acknowledges(s: State, a: Action, i: Interrupts) { a.StepHandler? && s.handler == Ack(i) }

  /** An interrupt is raised after an action if the action raises it, or if it was raised and the action does not
      acknowledge just it. */
  lemma RaisedIs(s: State, phys: nat, a: Action)
    requires Enabled(s, a)
    ensures var t := Next(s, phys, a);
            && (t.raised.tick <==>
                  RaisesTick(s, a) || (s.raised.tick && !(exists i :: Acknowledges(s, a, i) && i.tick)))
            && (t.raised.dma <==>
                  RaisesDma(s, a) || (s.raised.dma && !(exists i :: Acknowledges(s, a, i) && i.dma)))
  {
    if a.StepHandler? {
      HandlerRaises(s);
    } else if a.Statement? && a.ok {
      StatementLeavesInterrupts(s, phys, true);
    } else if a.Statement? {
      StatementLeavesInterrupts(s, phys, false);
    } else if a.MoveByte? {
      MoveRaisesNothing(s, phys);
    }
  }

  lemma HandlerRaises(s: State)
    ensures RunHandler(s).raised ==
            if s.handler.Ack? then
              Interrupts(s.raised.dma && !s.handler.i.dma, s.raised.tick && !s.handler.i.tick)
            else s.raised
    ensures s.handler.Ack? ==> Acknowledges(s, StepHandler, s.handler.i)
  {
  }

  lemma MoveRaisesNothing(s: State, phys: nat)
    ensures Move(s, phys).raised == s.raised
  {
  }

  /** A handler that has read `i`, before or behind its acknowledgement. */
  predicate HasRead(h: Handler, i: Interrupts) { h == Ack(i) || (!h.Read? && !h.Ack?) }

  /** What was raised of the rest still is. */
  predicate KeepsUnread(s: State, t: State, i: Interrupts) {
    && HasRead(t.handler, i)
    && (s.raised.tick && !i.tick ==> t.raised.tick)
    && (s.raised.dma && !i.dma ==> t.raised.dma)
  }

  lemma StepKeepsUnread(s: State, phys: nat, a: Action, i: Interrupts)
    requires Enabled(s, a) && !a.Interrupt? && HasRead(s.handler, i)
    ensures KeepsUnread(s, Next(s, phys, a), i)
  {
    RaisedIs(s, phys, a);
    if a.StepHandler? {
      HandlerGoesOn(s, i);
    } else {
      OthersSpareHandler(s, phys, a);
    }
  }

  lemma HandlerGoesOn(s: State, i: Interrupts)
    requires HasRead(s.handler, i)
    ensures HasRead(RunHandler(s).handler, i)
  {
  }

  lemma OthersSpareHandler(s: State, phys: nat, a: Action)
    requires Enabled(s, a) && !a.Interrupt? && !a.StepHandler?
    ensures Next(s, phys, a).handler == s.handler
  {
    if a.MoveByte? {
      MoveSparesHandler(s, phys);
    } else if a.Statement? {
      StatementLeavesInterrupts(s, phys, a.ok);
    }
  }

  lemma MoveSparesHandler(s: State, phys: nat)
    ensures Move(s, phys).handler == s.handler
  {
  }

  lemma OneMoreKeepsUnread(s0: State, phys: nat, s: State, run: seq<Action>, a: Action, i: Interrupts)
    requires After(s0, phys, run).Some? && KeepsUnread(s, After(s0, phys, run).value, i)
    requires After(s0, phys, run + [a]).Some? && !a.Interrupt?
    ensures KeepsUnread(s, After(s0, phys, run + [a]).value, i)
  {
    AfterLast(s0, phys, run, a);
    StepKeepsUnread(After(s0, phys, run).value, phys, a, i);
  }

  lemma Shorter(s0: State, phys: nat, run: seq<Action>, a: Action)
    requires After(s0, phys, run + [a]).Some?
    ensures After(s0, phys, run).Some?
  {
    AfterLast(s0, phys, run, a);
  }

  lemma {:induction false} UnreadStays(s0: State, phys: nat, before: seq<Action>, window: seq<Action>, i: Interrupts)
    requires After(s0, phys, before).Some? && HasRead(After(s0, phys, before).value.handler, i)
    requires After(s0, phys, before + window).Some? && Interrupt !in window
    ensures KeepsUnread(After(s0, phys, before).value, After(s0, phys, before + window).value, i)
    decreases |window|
  {
    if window == [] {
      assert before + window == before;
    } else {
      var init, a := window[..|window| - 1], window[|window| - 1];
      assert before + window == (before + init) + [a];
      Shorter(s0, phys, before + init, a);
      UnreadStays(s0, phys, before, init, i);
      OneMoreKeepsUnread(s0, phys, After(s0, phys, before).value, before + init, a, i);
    }
  }

  /** No interrupt is lost: `before` ends when the handler has read `i` and not yet acknowledged it; the rest of that
      handler goes on for `first` and `rest`, among whatever else. An interrupt that is not in `i` and is raised at
      any moment of it, here after `first`, is still raised at its end. */
  lemma UnreadIsNotAcknowledged(s0: State, phys: nat, before: seq<Action>, first: seq<Action>, rest: seq<Action>,
                                i: Interrupts)
    requires After(s0, phys, before).Some? && After(s0, phys, before).value.handler == Ack(i)
    requires After(s0, phys, before + first).Some? && After(s0, phys, before + first + rest).Some?
    requires Interrupt !in first && Interrupt !in rest
    ensures var u, t := After(s0, phys, before + first).value, After(s0, phys, before + first + rest).value;
            && (u.raised.tick && !i.tick ==> t.raised.tick)
            && (u.raised.dma && !i.dma ==> t.raised.dma)
  {
    UnreadStays(s0, phys, before, first, i);
    UnreadStays(s0, phys, before + first, rest, i);
  }

  // --- the timer ------------------------------------------------------------------------------------------

  /** The timer is armed or its callback is on the way to arm it; before probe has started it nothing of it runs. */
  predicate TimerOk(s: State) {
    if s.at == RUNNING then s.pending || s.callback.Raise? || s.callback.Rearm?
    else !s.pending && s.callback.Idle?
  }

  lemma StepKeepsTimer(s: State, phys: nat, a: Action)
    requires Enabled(s, a) && TimerOk(s)
    ensures TimerOk(Next(s, phys, a))
  {
    if a.MoveByte? {
      MoveSparesTimer(s, phys);
    } else if a.StepHandler? {
      HandlerSparesTimer(s);
    } else if a.Statement? {
      StatementSparesTimer(s, phys, a.ok);
    }
  }

  lemma MoveSparesTimer(s: State, phys: nat)
    ensures var t := Move(s, phys); t.at == s.at && t.pending == s.pending && t.callback == s.callback
  {
  }

  lemma HandlerSparesTimer(s: State)
    ensures var t := RunHandler(s); t.at == s.at && t.pending == s.pending && t.callback == s.callback
  {
  }

  lemma StatementSparesTimer(s: State, phys: nat, ok: bool)
    requires 0 <= s.at < RUNNING
    ensures var t := RunStatement(s, phys, ok);
            && t.callback == s.callback && (t.at == RUNNING ==> s.at == START_TIMER)
            && t.pending == (s.pending || s.at == START_TIMER) && (s.at == START_TIMER ==> t.at == RUNNING)
  {
  }

  /** The timer is armed by probe or by its callback, and until it expires. */
  lemma PendingIs(s: State, phys: nat, a: Action)
    requires Enabled(s, a)
    ensures var t := Next(s, phys, a);
            && (t.pending <==>
                  (a.Statement? && s.at == START_TIMER) || (a.StepCallback? && s.callback.Rearm?) ||
                  (s.pending && !a.Fire?))
            && (a.Fire? ==> t.callback.Raise?)
  {
    if a.MoveByte? {
      MoveSparesTimer(s, phys);
    } else if a.StepHandler? {
      HandlerSparesTimer(s);
    } else if a.Statement? {
      StatementSparesTimer(s, phys, a.ok);
    }
  }

  /** For every card and in every interleaving: from the return of a probe that succeeds on the timer never stops. */
  lemma {:induction false} TimerNeverStops(s0: State, phys: nat, run: seq<Action>)
    requires Before(s0, phys) && After(s0, phys, run).Some?
    ensures TimerOk(After(s0, phys, run).value)
    decreases |run|
  {
    if run != [] {
      TimerNeverStops(s0, phys, run[..|run| - 1]);
      StepKeepsTimer(After(s0, phys, run[..|run| - 1]).value, phys, run[|run| - 1]);
    }
  }

  // --- the tasklet ----------------------------------------------------------------------------------------

  function Ran(run: seq<Action>): nat { Count(run, (a: Action) => a.RunTasklet?) }

  function One(b: bool): nat { if b then 1 else 0 }

  /** The tasklet has been scheduled, whether or not it has run since. */
  predicate WasScheduled(s: State) { s.inits == 1 && !s.handler.Schedule? }

  lemma StepRuns(s: State, phys: nat, a: Action)
    requires Inv(s, phys) && Enabled(s, a)
    ensures var t := Next(s, phys, a);
            One(WasScheduled(t)) - One(t.tasklet.Scheduled?) ==
            One(WasScheduled(s)) - One(s.tasklet.Scheduled?) + One(a.RunTasklet?)
  {
    if a.MoveByte? {
      MoveIs(s, phys);
    } else if a.Statement? {
      StatementLeavesInterrupts(s, phys, a.ok);
    } else if a.StepHandler? {
      HandlerRuns(s, phys);
    }
  }

  lemma HandlerRuns(s: State, phys: nat)
    requires Inv(s, phys) && !s.handler.NoHandler?
    ensures var t := RunHandler(s);
            One(WasScheduled(t)) - One(t.tasklet.Scheduled?) == One(WasScheduled(s)) - One(s.tasklet.Scheduled?)
  {
  }

  /** From every card without 0x100 raised alone the tasklet runs at most once, and has run or is going to exactly
      when a handler has scheduled it. */
  lemma {:induction false} TaskletRunsOnce(s0: State, phys: nat, run: seq<Action>)
    requires Before(s0, phys) && s0.raised != ALONE && After(s0, phys, run).Some?
    ensures var s := After(s0, phys, run).value;
            Ran(run) + One(s.tasklet.Scheduled?) == One(WasScheduled(s))
    decreases |run|
  {
    if run != [] {
      var init, a := run[..|run| - 1], run[|run| - 1];
      TaskletRunsOnce(s0, phys, init);
      RunKeepsInv(s0, phys, init);
      StepRuns(After(s0, phys, init).value, phys, a);
    }
  }
}
