/** Probe, remove, interrupt handler and timer callback of the timer driver, each run alone on the driver's
    own fields; what they do is what the step machine of TimerCard does with nothing in between. */
module TimerDriver {
  import opened Kernel
  import opened TimerCard

  /** What the calls that probe makes return. */
  datatype Answers = Answers(enable: int, region: int, bar: bool, timer: bool, help: bool, irq: int)

  /** Does the call of a statement succeed? */
  predicate Succeeds(a: Answers, at: int) {
    && (at == ENABLE_DEVICE ==> a.enable == 0)
    && (at == REQUEST_REGION ==> a.region == 0)
    && (at == MAP_BAR ==> a.bar)
    && (at == ALLOC_TIMER ==> a.timer)
    && (at == ALLOC_HELP ==> a.help)
    && (at == REQUEST_IRQ ==> a.irq == 0)
  }

  /** The code that probe returns when the statement `at` fails. */
  function FailureCode(a: Answers, at: int): int {
    if at == ENABLE_DEVICE then -EIO
    else if at == REQUEST_REGION then -EBUSY
    else if at == REQUEST_IRQ then a.irq
    else -ENOMEM
  }

  /** The statement `at` is the first that fails, and probe answers with its code. */
  predicate Fails(a: Answers, at: int, retval: int) {
    !Succeeds(a, at) && retval == FailureCode(a, at) && forall p | ENABLE_DEVICE <= p < at :: Succeeds(a, p)
  }

  predicate Stopped(at: int) { at <= UNBOUND || at == RUNNING || at >= LEAKED }

  /** The machine run by statements only, until probe or remove is over. */
  function Alone(s: State, a: Answers): State
    decreases if Stopped(s.at) then 0 else LEAKED - s.at
  {
    if Stopped(s.at) then s
    else
      StatementGoesOn(s, Succeeds(a, s.at));
      Alone(RunStatement(s, Succeeds(a, s.at)), a)
  }

  lemma StatementGoesOn(s: State, ok: bool)
    requires !Stopped(s.at)
    ensures RunStatement(s, ok).at > s.at || RunStatement(s, ok).at == UNBOUND
  {
  }

  lemma Advance(s: State, a: Answers)
    requires !Stopped(s.at)
    ensures Alone(s, a) == Alone(RunStatement(s, Succeeds(a, s.at)), a)
  {
  }

  predicate SameOthers(s: State, t: State) { t.callback == s.callback && t.handlers == s.handlers }

  lemma StatementLeavesOthers(s: State, ok: bool)
    ensures SameOthers(s, RunStatement(s, ok))
  {
  }

  /** It is one of the interleavings: the one in which nobody else does anything. */
  lemma {:induction false} AloneIsARun(before: seq<Action>, a: Answers) returns (run: seq<Action>)
    requires After(before).Some?
    requires var s := After(before).value; s.callback.Idle? && s.handlers == map[]
    ensures before <= run && After(run) == Some(Alone(After(before).value, a))
    ensures forall i | |before| <= i < |run| :: run[i].Statement?
    decreases var at := After(before).value.at; if Stopped(at) then 0 else LEAKED - at
  {
    var s := After(before).value;
    run := before;
    if !Stopped(s.at) {
      var ok := Succeeds(a, s.at);
      run := before + [Statement(ok)];
      assert run[..|run| - 1] == before;
      StatementGoesOn(s, ok);
      StatementLeavesOthers(s, ok);
      run := AloneIsARun(run, a);
    }
  }

  /** A handler, and a callback, of the machine from the first step to the last with nothing in between. */
  function HandlerAlone(s: State, h: nat): State
    requires Enabled(s, Interrupt(h))
  {
    var s2 := Next(Next(Next(s, Interrupt(h)), StepHandler(h)), StepHandler(h));
    if h in s2.handlers then Next(s2, StepHandler(h)) else s2
  }

  function CallbackAlone(s: State): State
    requires Enabled(s, Fire)
  {
    Next(Next(Next(Next(s, Fire), StepCallback), StepCallback), StepCallback)
  }

  /** What the five calls before the publication leave probe with: each is made only if all before it succeeded. */
  function Granted(a: Answers): (bool, bool, bool, bool, bool) {
    var enabled := a.enable == 0;
    var region := enabled && a.region == 0;
    var bar := region && a.bar;
    var timer := bar && a.timer;
    (enabled, region, bar, timer, timer && a.help)
  }

  class Driver {
    var card: Card             // what the driver holds and the fields it has set
    var pending: bool          // the timer is armed
    var raised: bool           // the card's register

    constructor (raised: bool)
      ensures Abs(UNBOUND) == INIT.(raised := raised)
    {
      card, pending, this.raised := NOTHING, false, raised;
    }

    /** The state of the machine at the statement `at` when no callback and no handler runs. */
    ghost function Abs(at: int): State
      reads this
    {
      State(at, card, pending, Idle, map[], raised, false)
    }

    /** The part of probe that takes the device and memory. */
    method Acquire(a: Answers) returns (retval: int, ghost failed: int)
      requires card == NOTHING
      modifies this`card
      ensures retval == 0 ==>
                && card == NOTHING.(enabled := true, region := true, bar := true, timer := true, help := true)
                && Alone(Abs(SETUP_TIMER), a) == Alone(old(Abs(ENABLE_DEVICE)), a)
                && forall p | ENABLE_DEVICE <= p < SETUP_TIMER :: Succeeds(a, p)
      ensures retval != 0 ==> Abs(LEAKED) == Alone(old(Abs(ENABLE_DEVICE)), a) && Fails(a, failed, retval)
      ensures var (e, r, b, t, h) := Granted(a);
              && card == Card(e, r, b, t, h, false, false, false, false, false)
              && retval == if h then 0 else if r then -ENOMEM else if e then -EBUSY else -EIO
    {
      failed := ENABLE_DEVICE;
      Advance(Abs(ENABLE_DEVICE), a);
      if a.enable != 0 {
        return -EIO, failed;
      }
      card, failed := card.(enabled := true), REQUEST_REGION;
      Advance(Abs(REQUEST_REGION), a);
      if a.region != 0 {
        return -EBUSY, failed;
      }
      card, failed := card.(region := true), MAP_BAR;
      Advance(Abs(MAP_BAR), a);
      if !a.bar {
        return -ENOMEM, failed;
      }
      card, failed := card.(bar := true), ALLOC_TIMER;
      Advance(Abs(ALLOC_TIMER), a);
      if !a.timer {
        return -ENOMEM, failed;
      }
      card, failed := card.(timer := true), ALLOC_HELP;
      Advance(Abs(ALLOC_HELP), a);
      if !a.help {
        return -ENOMEM, failed;
      }
      card := card.(help := true);
      retval := 0;
    }

    /** The part of probe that cannot fail. */
    method SetFields(a: Answers)
      requires card.timer && card.help
      modifies this`card
      ensures Alone(Abs(REQUEST_IRQ), a) == Alone(old(Abs(SETUP_TIMER)), a)
      ensures card == old(card).(setup := true, virt := true, link := true, drvdata := true)
    {
      ghost var s := Abs(SETUP_TIMER);
      Advance(s, a);
      card := card.(setup := true);
      assert Abs(SET_VIRT) == RunStatement(s, true);
      Advance(Abs(SET_VIRT), a);
      card := card.(virt := true);
      Advance(Abs(SET_TIMER), a);
      card := card.(link := true);
      Advance(Abs(SET_DRVDATA), a);
      card := card.(drvdata := true);
    }

    /** The part of probe that lets the interrupts and the timer run. */
    method Start(a: Answers) returns (retval: int)
      requires card.bar && card.timer && card.setup
      modifies this`card, this`pending
      ensures retval == a.irq && (retval == 0 ==> pending)
      ensures card == if retval == 0 then old(card).(irq := true) else old(card)
      ensures retval == 0 ==> Abs(RUNNING) == Alone(old(Abs(REQUEST_IRQ)), a)
      ensures retval != 0 ==> Abs(LEAKED) == Alone(old(Abs(REQUEST_IRQ)), a)
    {
      ghost var s := Abs(REQUEST_IRQ);
      Advance(s, a);
      retval := a.irq;
      assert Succeeds(a, REQUEST_IRQ) == (retval == 0);
      if retval != 0 {
        assert RunStatement(s, false) == Abs(LEAKED);
        return;
      }
      assert RunStatement(s, true) == Abs(ENABLE_IRQ).(card := card.(irq := true));
      card := card.(irq := true);
      Advance(Abs(ENABLE_IRQ), a);
      Advance(Abs(START_TIMER), a);
      pending := true;
    }

    /** Probe answers with the code of the call that fails first, and ends where the machine gets stuck; when it
        succeeds everything is held and published, the interrupt requested and the timer armed. */
    method MyProbe(a: Answers) returns (retval: int, ghost failed: int)
      requires card == NOTHING
      modifies this
      ensures retval == (if a.enable != 0 then -EIO
                         else if a.region != 0 then -EBUSY
                         else if !a.bar || !a.timer || !a.help then -ENOMEM
                         else a.irq)
      ensures var (e, r, b, t, h) := Granted(a);
              card == Card(e, r, b, t, h, h, h, h, h, h && a.irq == 0) && pending == (old(pending) || retval == 0)
      ensures retval == 0 ==> Abs(RUNNING) == Alone(old(Abs(ENABLE_DEVICE)), a)
      ensures retval != 0 ==> Abs(LEAKED) == Alone(old(Abs(ENABLE_DEVICE)), a) && Fails(a, failed, retval)
    {
      retval, failed := Acquire(a);
      if retval != 0 {
        return;
      }
      SetFields(a);
      retval := Start(a);
      failed := REQUEST_IRQ;
    }

    /** The last part of remove. */
    method ReleaseDevice(a: Answers)
      requires card.region && card.enabled && card.help
      modifies this`card
      ensures Abs(UNBOUND) == Alone(old(Abs(RELEASE_REGION)), a)
      ensures card == old(card).(region := false, enabled := false, help := false, virt := false, link := false,
                                 drvdata := false)
    {
      Advance(Abs(RELEASE_REGION), a);
      card := card.(region := false);
      Advance(Abs(DISABLE_DEVICE), a);
      card := card.(enabled := false);
      Advance(Abs(FREE_HELP), a);
      card := card.(help := false, virt := false, link := false, drvdata := false);
    }

    /** Remove after a probe that returned 0, whatever the timer and the interrupts did in between: nothing is left, and
        nothing was touched that was gone. */
    method MyRemove(a: Answers)
      requires CardOk(RUNNING, card)
      modifies this
      ensures Abs(UNBOUND) == Alone(old(Abs(DEL_TIMER)), a)
      ensures card == NOTHING && !pending && raised == old(raised)
    {
      Advance(Abs(DEL_TIMER), a);
      pending := false;
      Advance(Abs(FREE_TIMER), a);
      card := card.(timer := false, setup := false);
      Advance(Abs(UNLINK_IRQ), a);
      card := card.(irq := false);
      Advance(Abs(WAIT_IRQ), a);
      Advance(Abs(UNMAP_BAR), a);
      card := card.(bar := false);
      ReleaseDevice(a);
    }

    /** The handler answers "mine" exactly when the card has raised its interrupt, which is then acknowledged. */
    method MyHandler(at: int, h: nat) returns (mine: bool)
      requires card.irq && card.help && card.virt && card.bar
      modifies this`raised
      ensures mine == old(raised) && !raised
      ensures Abs(at) == HandlerAlone(old(Abs(at)), h)
    {
      var state := raised;
      if !state {
        return false;
      }
      raised := false;
      mine := true;
    }

    /** The callback raises the interrupt and arms the timer that brings it back. */
    method RaiseIntr(at: int)
      requires pending && card.help && card.virt && card.link && card.bar && card.timer && card.setup
      modifies this`raised, this`pending
      ensures raised && pending
      ensures Abs(at) == CallbackAlone(old(Abs(at)))
    {
      pending := false;
      raised := true;
      pending := true;
    }
  }
}
