/** The miscellaneous device: a 32-bit counter of open instances and the number of characters a read
    hands out, set and read with ioctl. Every access to them is a load or a store under a spinlock. */
module MiscDevice {
  import opened Kernel
  import opened LockedObject

  const U32: int := 0x1_0000_0000

  // --- command words --------------------------------------------------------------------------

  const MY_IOC_MAGIC: nat := 0x24      // '$'

  function IocType(cmd: nat): nat { (cmd / 0x100) % 0x100 }
  function IocNr(cmd: nat): nat { cmd % 0x100 }

  /** Direction, argument size, type and number packed into one word. */
  function Ioc(dir: nat, size: nat, nr: nat): nat {
    dir * 0x4000_0000 + size * 0x1_0000 + MY_IOC_MAGIC * 0x100 + nr
  }

  const MY_READ: nat := Ioc(2, 4, 16)
  const MY_WRITE: nat := Ioc(1, 4, 17)

  const TEXT: seq<char> := "Ahoj"

  // --- the calls and their atomic meaning --------------------------------------------------------

  /** The five bytes of the array on the stack of a device read, as they are before it. */
  type Stack = s: seq<char> | |s| == |TEXT| + 1 witness "?????"

  datatype CharCall =
    | Ioctl(cmd: nat, arg: nat, writable: bool)
    | DevRead(str: Stack, writable: bool)

  /** `value` is what an ioctl get stores for the user, `text` what a device read does. */
  datatype CharAnswer = CharAnswer(code: int, value: Option<int>, text: seq<char>)

  function Code(code: int): CharAnswer { CharAnswer(code, None, []) }

  /** The command as the driver sorts it out before it takes the lock. */
  datatype Command = Refused(errno: int) | Ignored | Set(v: int) | Get

  function Decode(cmd: nat, arg: nat): Command {
    if IocType(cmd) != MY_IOC_MAGIC then Refused(ENOTTY)
    else if IocNr(cmd) != 16 && IocNr(cmd) != 17 then Refused(ENOTTY)
    else if cmd == MY_WRITE then (if arg < 1 || arg > 4 then Refused(EINVAL) else Set(arg))
    else if cmd == MY_READ then Get
    else Ignored
  }

  /** Both commands pass the tests of type and number, and only a set in range stores anything. */
  lemma DecodeMeaning(cmd: nat, arg: nat)
    ensures MY_READ == 0x8004_2410 && MY_WRITE == 0x4004_2411
    ensures Decode(MY_READ, arg) == Get
    ensures Decode(cmd, arg).Set? <==> cmd == MY_WRITE && 1 <= arg <= 4
    ensures Decode(cmd, arg) == Refused(EINVAL) <==> cmd == MY_WRITE && !(1 <= arg <= 4)
    ensures Decode(cmd, arg) == Refused(ENOTTY) <==>
            IocType(cmd) != MY_IOC_MAGIC || IocNr(cmd) !in {16, 17}
  {
    assert IocType(MY_READ) == MY_IOC_MAGIC && IocNr(MY_READ) == 16;
    assert IocType(MY_WRITE) == MY_IOC_MAGIC && IocNr(MY_WRITE) == 17;
  }

  /** The text a device read hands out; any count but 1, 2 and 3 means all of it. */
  function Text(n: int): seq<char> {
    if n == 1 then TEXT[..1] else if n == 2 then TEXT[..2] else if n == 3 then TEXT[..3] else TEXT
  }

  function GetAnswer(n: int, writable: bool): CharAnswer {
    if writable then CharAnswer(0, Some(n), []) else Code(-EFAULT)
  }

  /** The whole array goes to the user, whatever was asked for; the return value counts the text in it. */
  function ReadAnswer(n: int, str: Stack, writable: bool): CharAnswer {
    if writable then CharAnswer(n, None, Strcpy(str, Text(n))) else Code(-EFAULT)
  }

  /** Five bytes that begin with the first `n` characters of the text and a zero. */
  predicate HandsOut(bytes: seq<char>, n: int) {
    1 <= n <= |TEXT| && |bytes| == |TEXT| + 1 && bytes[..n] == TEXT[..n] && bytes[n] == '\0'
  }

  /** What an ioctl answers, in terms of its arguments and the value `n` that it finds. */
  predicate IoctlAnswers(cmd: nat, arg: nat, writable: bool, n: int, a: CharAnswer) {
    && a.text == []
    && if (cmd / 0x100) % 0x100 != 0x24 || cmd % 0x100 !in {16, 17} then a.code == -ENOTTY && a.value.None?
       else if cmd == MY_WRITE && !(1 <= arg <= 4) then a.code == -EINVAL && a.value.None?
       else if cmd == MY_READ && !writable then a.code == -EFAULT && a.value.None?
       else a.code == 0 && a.value == if cmd == MY_READ then Some(n) else None
  }

  /** Does the call store a value? */
  predicate Stores(c: CharCall) { c.Ioctl? && c.cmd == MY_WRITE && 1 <= c.arg <= 4 }

  function CharAtomic(c: CharCall, n: int): (int, CharAnswer) {
    match c
    case DevRead(str, writable) => (n, ReadAnswer(n, str, writable))
    case Ioctl(cmd, arg, writable) =>
      match Decode(cmd, arg)
      case Refused(e) => (n, Code(-e))
      case Ignored => (n, Code(0))
      case Set(v) => (v, Code(0))
      case Get => (n, GetAnswer(n, writable))
  }

  datatype CountCall = Open | Release

  /** The 32-bit counter wraps both ways. */
  function Up(n: int): int { if n == U32 - 1 then 0 else n + 1 }
  function Down(n: int): int { if n == 0 then U32 - 1 else n - 1 }

  predicate IsU32(n: int) { 0 <= n < U32 }

  function CountAtomic(c: CountCall, n: int): (int, int) {
    (if c.Open? then Up(n) else Down(n), 0)
  }

  lemma WrapsAreModular(x: int)
    ensures Up(x % U32) == (x + 1) % U32 && Down(x % U32) == (x - 1) % U32
  {
  }

  /** The device run one call at a time, on its global variables. */
  class Device {
    var count: int
    var charCount: int

    constructor ()
      ensures count == 0 && charCount == 4
    {
      count, charCount := 0, 4;
    }

    /** Open counts up, modulo 2^32 ... */
    method MyOpen() returns (code: int)
      requires IsU32(count)
      modifies this`count
      ensures 0 <= count < 0x1_0000_0000 && count == (old(count) + 1) % 0x1_0000_0000 && code == 0
      ensures (count, code) == CountAtomic(Open, old(count))
    {
      WrapsAreModular(count);
      count := Up(count);
      code := 0;
    }

    /** ... and release down, so that it undoes an open. */
    method MyRelease() returns (code: int)
      requires IsU32(count)
      modifies this`count
      ensures 0 <= count < 0x1_0000_0000 && count == (old(count) - 1) % 0x1_0000_0000 && code == 0
      ensures Up(count) == old(count)
      ensures (count, code) == CountAtomic(Release, old(count))
    {
      WrapsAreModular(count);
      count := Down(count);
      code := 0;
    }

    /** A read hands out five bytes, whatever `asked` is: the first characters of the text, a zero, and what was in
        the array before. */
    method MyRead(str: Stack, asked: nat, writable: bool) returns (a: CharAnswer)
      requires 1 <= charCount <= 4
      ensures a == CharAtomic(DevRead(str, writable), charCount).1
      ensures writable ==>
                && a.code == charCount && HandsOut(a.text, charCount)
                && a.text[charCount + 1..] == str[charCount + 1..]
      ensures !writable ==> a == Code(-EFAULT)
    {
      var chars := charCount;
      var buf: Stack := str;
      if chars == 1 {
        buf := Strcpy(buf, "A");
      } else if chars == 2 {
        buf := Strcpy(buf, "Ah");
      } else if chars == 3 {
        buf := Strcpy(buf, "Aho");
      } else {
        buf := Strcpy(buf, "Ahoj");
      }
      if !writable {
        return Code(-EFAULT);
      }
      a := CharAnswer(chars, None, buf);
    }

    method MyUnlockedIoctl(cmd: nat, arg: nat, writable: bool) returns (a: CharAnswer)
      modifies this`charCount
      ensures (charCount, a) == CharAtomic(Ioctl(cmd, arg, writable), old(charCount))
      ensures IoctlAnswers(cmd, arg, writable, old(charCount), a)
      ensures charCount == if Stores(Ioctl(cmd, arg, writable)) then arg else old(charCount)
    {
      if IocType(cmd) != MY_IOC_MAGIC {
        return Code(-ENOTTY);
      }
      if IocNr(cmd) != 16 && IocNr(cmd) != 17 {
        return Code(-ENOTTY);
      }
      if cmd == MY_WRITE {
        if arg < 1 || arg > 4 {
          return Code(-EINVAL);
        }
        charCount := arg;
      }
      if cmd == MY_READ {
        var copy := charCount;
        if !writable {
          return Code(-EFAULT);
        }
        return CharAnswer(0, Some(copy), []);
      }
      a := Code(0);
    }
  }

  // --- the counter, as loads and stores under count_lock ---------------------------------------

  datatype CountLocal = ToLoad | Loaded(reg: int) | Stored

  const COUNT_STEPS: Object<CountCall, int, CountLocal, int> := Object(
    (c: CountCall) => None,
    (c: CountCall) => ToLoad,
    (c: CountCall, l: CountLocal) => if l.ToLoad? then 2 else if l.Loaded? then 1 else 0,
    (c: CountCall, l: CountLocal, n: int) =>
      match l
      case ToLoad => (Loaded(n), n)
      case Loaded(reg) => (Stored, if c.Open? then Up(reg) else Down(reg))
      case Stored => (Stored, n),
    (c: CountCall, l: CountLocal) => 0)

  predicate CountMid(c: CountCall, l: CountLocal, n: int) {
    IsU32(n) && (l.Loaded? ==> l.reg == n)
  }

  lemma CountStepsImplementAtomicCalls()
    ensures Implements(COUNT_STEPS, CountAtomic, IsU32, CountMid)
  {
    assert Progresses(COUNT_STEPS);
    forall c: CountCall, n: int | IsU32(n)
      ensures Whole(COUNT_STEPS, c, n) == CountAtomic(c, n)
    {
      assert Run(COUNT_STEPS, c, Loaded(n), n) == Run(COUNT_STEPS, c, Stored, CountAtomic(c, n).0);
    }
  }

  /** The calls of one kind that have taken effect. */
  function Effective(s: State<CountCall, int, CountLocal, int>, c: CountCall): set<CallId> {
    set k | k in s.calls && (s.calls[k].Leaving? || s.calls[k].Returned?) && s.calls[k].op == c
  }

  function OfKind(log: seq<Entry<CountCall, int>>, c: CountCall): set<CallId> {
    if log == [] then {}
    else
      var last := |log| - 1;
      OfKind(log[..last], c) + (if log[last].op == c then {log[last].c} else {})
  }

  lemma {:induction false} OfKindHas(log: seq<Entry<CountCall, int>>, c: CountCall, k: CallId)
    ensures k in OfKind(log, c) <==> exists i | 0 <= i < |log| :: log[i].c == k && log[i].op == c
    decreases |log|
  {
    if log != [] {
      var last := |log| - 1;
      OfKindHas(log[..last], c, k);
      if k in OfKind(log[..last], c) {
        var i :| 0 <= i < last && log[..last][i].c == k && log[..last][i].op == c;
        assert log[i].c == k && log[i].op == c;
      }
      if i :| 0 <= i < |log| && log[i].c == k && log[i].op == c {
        if i < last { assert log[..last][i] == log[i]; }
      }
    }
  }

  predicate Distinct(log: seq<Entry<CountCall, int>>) {
    forall i, j | 0 <= i < j < |log| :: log[i].c != log[j].c
  }

  lemma LastIsNew(log: seq<Entry<CountCall, int>>, c: CountCall)
    requires Distinct(log) && log != []
    ensures log[|log| - 1].c !in OfKind(log[..|log| - 1], c)
  {
    OfKindHas(log[..|log| - 1], c, log[|log| - 1].c);
  }

  /** Opens minus releases in an order. */
  function Net(log: seq<Entry<CountCall, int>>): int {
    if log == [] then 0
    else Net(log[..|log| - 1]) + (if log[|log| - 1].op == Open then 1 else -1)
  }

  /** The counter of a sequential order is that difference modulo 2^32 ... */
  lemma {:induction false} ReplayIsNet(log: seq<Entry<CountCall, int>>)
    ensures Replay(CountAtomic, 0, log) == Net(log) % U32
    decreases |log|
  {
    if log != [] {
      ReplayIsNet(log[..|log| - 1]);
      WrapsAreModular(Net(log[..|log| - 1]));
    }
  }

  lemma OneMore(log: seq<Entry<CountCall, int>>, c: CountCall)
    requires Distinct(log) && log != []
    ensures |OfKind(log, c)| == |OfKind(log[..|log| - 1], c)| + (if log[|log| - 1].op == c then 1 else 0)
  {
    LastIsNew(log, c);
    var before, k := OfKind(log[..|log| - 1], c), log[|log| - 1].c;
    if log[|log| - 1].op == c {
      assert OfKind(log, c) == before + {k};
    } else {
      assert OfKind(log, c) == before;
    }
  }

  /** ... and the difference is one of numbers of calls. */
  lemma {:induction false} NetCountsCalls(log: seq<Entry<CountCall, int>>)
    requires Distinct(log)
    ensures Net(log) == |OfKind(log, Open)| - |OfKind(log, Release)|
    decreases |log|
  {
    if log != [] {
      var last := |log| - 1;
      NetCountsCalls(log[..last]);
      OneMore(log, Open);
      OneMore(log, Release);
    }
  }

  lemma EffectiveIsLogged(s: State<CountCall, int, CountLocal, int>, log: seq<Entry<CountCall, int>>, c: CountCall)
    requires LogMatches(s, log)
    ensures Effective(s, c) == OfKind(log, c)
  {
    forall k
      ensures k in Effective(s, c) <==> k in OfKind(log, c)
    {
      OfKindHas(log, c, k);
      if k in Effective(s, c) {
        assert Logged(log, k);
      }
    }
  }

  /** The counter is the number of opens that have taken effect minus that of releases, modulo 2^32. */
  predicate CountsCalls(s: State<CountCall, int, CountLocal, int>) {
    s.data == (|Effective(s, Open)| - |Effective(s, Release)|) % 0x1_0000_0000
  }

  lemma CounterIsDifference(s: State<CountCall, int, CountLocal, int>, log: seq<Entry<CountCall, int>>)
    requires LogMatches(s, log) && s.data == Replay(CountAtomic, 0, log)
    ensures CountsCalls(s)
  {
    assert Net(log) == |Effective(s, Open)| - |Effective(s, Release)| by {
      NetCountsCalls(log);
      EffectiveIsLogged(s, log, Open);
      EffectiveIsLogged(s, log, Release);
    }
    ReplayIsNet(log);
  }

  /** No update of the counter is lost: whenever the lock is free, it is the number of opens that have
      taken effect minus the number of releases, modulo 2^32 - and when no call is under way, that is
      all calls ever made. */
  lemma NoLostUpdates(run: seq<Action<CountCall>>)
    requires After(COUNT_STEPS, 0, run).Some?
    ensures After(COUNT_STEPS, 0, run).value.owner.None? ==> CountsCalls(After(COUNT_STEPS, 0, run).value)
  {
    CountStepsImplementAtomicCalls();
    Linearizable(COUNT_STEPS, CountAtomic, IsU32, CountMid, 0, run);
    var s := After(COUNT_STEPS, 0, run).value;
    if s.owner.None? {
      CounterIsDifference(s, Order(COUNT_STEPS, 0, run));
    }
  }

  // --- the character count, under char_lock -------------------------------------------------------

  datatype CharLocal = ToStore(v: int) | Done | ToFetch | Fetched(v: int)

  function CharEarly(c: CharCall): Option<CharAnswer> {
    match c
    case DevRead(_, _) => None
    case Ioctl(cmd, arg, _) =>
      match Decode(cmd, arg)
      case Refused(e) => Some(Code(-e))
      case Ignored => Some(Code(0))
      case _ => None
  }

  function CharStart(c: CharCall): CharLocal {
    if c.Ioctl? && Decode(c.cmd, c.arg).Set? then ToStore(c.arg) else ToFetch
  }

  function CharResult(c: CharCall, l: CharLocal): CharAnswer {
    match l
    case Fetched(v) => if c.DevRead? then ReadAnswer(v, c.str, c.writable) else GetAnswer(v, c.writable)
    case _ => Code(0)
  }

  const CHAR_STEPS: Object<CharCall, int, CharLocal, CharAnswer> := Object(
    CharEarly,
    CharStart,
    (c: CharCall, l: CharLocal) => if l.ToStore? || l.ToFetch? then 1 else 0,
    (c: CharCall, l: CharLocal, n: int) =>
      match l
      case ToStore(v) => (Done, v)
      case ToFetch => (Fetched(n), n)
      case _ => (l, n),
    CharResult)

  predicate InRange(n: int) { 1 <= n <= 4 }

  predicate CharMid(c: CharCall, l: CharLocal, n: int) {
    InRange(n) && (l.ToStore? ==> InRange(l.v))
  }

  lemma CharStepsImplementAtomicCalls()
    ensures Implements(CHAR_STEPS, CharAtomic, InRange, CharMid)
  {
    assert Progresses(CHAR_STEPS);
    forall c: CharCall, n: int | InRange(n)
      ensures Whole(CHAR_STEPS, c, n) == CharAtomic(c, n)
    {
      if c.Ioctl? && Decode(c.cmd, c.arg).Set? {
        assert Run(CHAR_STEPS, c, Done, c.arg) == (Done, c.arg);
      } else {
        assert Run(CHAR_STEPS, c, Fetched(n), n) == (Fetched(n), n);
      }
    }
  }

  /** The value of the last successful set in an order; 4 when there was none. */
  function LatestSet(log: seq<Entry<CharCall, CharAnswer>>): int {
    if log == [] then 4
    else
      var c := log[|log| - 1].op;
      if Stores(c) then c.arg else LatestSet(log[..|log| - 1])
  }

  /** What a call that finds `n` answers: an ioctl as above, a device read that many characters. */
  predicate AnswerMeans(c: CharCall, n: int, a: CharAnswer) {
    match c
    case Ioctl(cmd, arg, writable) => IoctlAnswers(cmd, arg, writable, n, a)
    case DevRead(_, writable) =>
      if writable then a.code == n && HandsOut(a.text, n) else a == CharAnswer(-EFAULT, None, [])
  }

  lemma CharAtomicMeans(c: CharCall, n: int)
    requires InRange(n)
    ensures AnswerMeans(c, n, CharAtomic(c, n).1)
  {
    if c.Ioctl? {
      DecodeMeaning(c.cmd, c.arg);
    }
  }

  /** Each call of an order answers so for the latest set value. */
  predicate AnswersLatestSet(log: seq<Entry<CharCall, CharAnswer>>, k: nat)
    requires k < |log|
  {
    InRange(LatestSet(log[..k])) && AnswerMeans(log[k].op, LatestSet(log[..k]), log[k].ret)
  }

  lemma {:induction false} LatestSetInRange(log: seq<Entry<CharCall, CharAnswer>>)
    ensures InRange(LatestSet(log))
    decreases |log|
  {
    if log != [] {
      LatestSetInRange(log[..|log| - 1]);
    }
  }

  lemma {:induction false} ReplayIsLatestSet(log: seq<Entry<CharCall, CharAnswer>>, k: nat)
    requires Legal(CharAtomic, 4, log) && k < |log|
    ensures Replay(CharAtomic, 4, log) == LatestSet(log)
    ensures log[k].ret == CharAtomic(log[k].op, LatestSet(log[..k])).1
    ensures InRange(LatestSet(log[..k]))
    decreases |log|
  {
    var last := |log| - 1;
    if last == 0 {
      assert log[..last] == [];
    } else {
      ReplayIsLatestSet(log[..last], if k < last then k else 0);
      assert InRange(LatestSet(log[..last])) by { LatestSetInRange(log[..last]); }
      if k < last {
        assert log[..last][..k] == log[..k];
      }
    }
  }

  lemma AnswerSeesLatestSet(log: seq<Entry<CharCall, CharAnswer>>, k: nat)
    requires Legal(CharAtomic, 4, log) && k < |log|
    ensures AnswersLatestSet(log, k)
  {
    ReplayIsLatestSet(log, k);
    CharAtomicMeans(log[k].op, LatestSet(log[..k]));
  }

  lemma AnswersInOrder(log: seq<Entry<CharCall, CharAnswer>>)
    requires Legal(CharAtomic, 4, log)
    ensures Replay(CharAtomic, 4, log) == LatestSet(log)
    ensures forall k | 0 <= k < |log| :: AnswersLatestSet(log, k)
  {
    forall k | 0 <= k < |log|
      ensures AnswersLatestSet(log, k)
    {
      AnswerSeesLatestSet(log, k);
    }
    if log != [] {
      ReplayIsLatestSet(log, 0);
    }
  }

  /** `log` explains the calls, the variable is its latest set, and so is every answer at its place. */
  ghost predicate InLockOrder(s: State<CharCall, int, CharLocal, CharAnswer>, log: seq<Entry<CharCall, CharAnswer>>) {
    && Explains(CharAtomic, 4, s.hist, log)
    && (s.owner.None? ==> s.data == LatestSet(log))
    && forall k | 0 <= k < |log| :: AnswersLatestSet(log, k)
  }

  /** Every get and every device read sees the value of the latest set in lock order, within 1 to 4, and
      in an order that respects real time; the variable itself is in that range in every state. */
  lemma ReadersSeeTheLatestSet(run: seq<Action<CharCall>>)
    requires After(CHAR_STEPS, 4, run).Some?
    ensures InRange(After(CHAR_STEPS, 4, run).value.data)
    ensures InLockOrder(After(CHAR_STEPS, 4, run).value, Order(CHAR_STEPS, 4, run))
  {
    CharStepsImplementAtomicCalls();
    Linearizable(CHAR_STEPS, CharAtomic, InRange, CharMid, 4, run);
    AnswersInOrder(Order(CHAR_STEPS, 4, run));
  }
}
