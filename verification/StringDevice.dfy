/** The ten-byte string behind one mutex: a write lays at most nine bytes over the old string, possibly cut
    short by a fault, a read returns a part of the text up to the first zero. */
module StringDevice {
  import opened Kernel
  import opened LockedObject

  const SIZE: int := 10

  /** Ten bytes of which the last is zero: what every call finds and leaves. */
  predicate Good(s: seq<byte>) {
    |s| == SIZE && s[SIZE - 1] == 0
  }

  // --- the calls as atomic steps ------------------------------------------------------------------

  /** `copy_from_user` can fetch only the first `reach` bytes of `src`; when that is too little it either
      pads the destination with zeros or leaves the rest of it as it was. */
  datatype Call =
    | Read(off: nat, count: nat, room: nat)
    | Write(src: seq<byte>, reach: nat, pad: bool)

  datatype Answer = Answer(t: Transfer) | OutOfBounds

  /** How many bytes of a write are copied at most. */
  function Wanted(src: seq<byte>): nat { Min(|src|, SIZE - 1) }

  /** Does this write determine byte `k` of the string, and to what? */
  predicate Touches(w: Call, k: nat) {
    w.Write? && k < Wanted(w.src) && (k < w.reach || w.pad)
  }

  function Laid(w: Call, k: nat): byte
    requires Touches(w, k)
  {
    if k < w.reach then w.src[k] else 0
  }

  function Overlay(s: seq<byte>, w: Call): (r: seq<byte>)
    requires w.Write?
    ensures |r| == |s|
  {
    seq(|s|, k requires 0 <= k < |s| => if Touches(w, k) then Laid(w, k) else s[k])
  }

  /** The length of the text: the place of the first zero, or the whole length when there is none. */
  function Strlen(s: seq<byte>): (n: nat)
    ensures n <= |s|
    ensures forall k | 0 <= k < n :: s[k] != 0
    ensures n < |s| ==> s[n] == 0
  {
    if s == [] || s[0] == 0 then 0 else 1 + Strlen(s[1..])
  }

  /** The first zero of the string is at `n`. */
  predicate IsText(s: seq<byte>, n: nat) {
    n < |s| && s[n] == 0 && forall k | 0 <= k < n :: s[k] != 0
  }

  function WriteCode(w: Call): int
    requires w.Write?
  {
    if w.reach < Wanted(w.src) then -EFAULT else |w.src|
  }

  function Atomic(c: Call, s: seq<byte>): (seq<byte>, Answer) {
    match c
    case Read(off, count, room) => (s, Answer(ReadFromBuffer(s[..Strlen(s)], off, count, room)))
    case Write(_, _, _) =>
      (if |s| == SIZE then Overlay(s, c)[SIZE - 1 := 0] else s, Answer(Transfer(WriteCode(c), [], 0)))
  }

  /** The device run one call at a time, on its static array. */
  class Device {
    const str: array<byte>

    constructor ()
      ensures fresh(str) && Good(str[..]) && Strlen(str[..]) == 0
    {
      str := new byte[SIZE](_ => 0);
    }

    /** The kernel's copy: `n` bytes to the start of the array; the result is the number not copied. */
    method CopyFromUser(ghost w: Call, src: seq<byte>, n: nat, reach: nat, pad: bool) returns (missing: nat)
      requires w == Write(src, reach, pad) && n == Wanted(src) && str.Length == SIZE
      modifies str
      ensures str[..] == Overlay(old(str[..]), w)
      ensures missing == if reach < n then n - reach else 0
    {
      ghost var was := str[..];
      var i := 0;
      while i < n
        invariant i <= n
        invariant forall k | 0 <= k < SIZE :: str[k] == if k < i && Touches(w, k) then Laid(w, k) else was[k]
      {
        if i < reach {
          str[i] := src[i];
        } else if pad {
          str[i] := 0;
        }
        i := i + 1;
      }
      missing := if reach < n then n - reach else 0;
    }

    method MyWrite(src: seq<byte>, reach: nat, pad: bool) returns (ret: int)
      requires Good(str[..])
      modifies str
      ensures Good(str[..])
      ensures (str[..], Answer(Transfer(ret, [], 0))) == Atomic(Write(src, reach, pad), old(str[..]))
      ensures ret == if reach < Min(|src|, 9) then -EFAULT else |src|
      ensures |str[..]| == 10 && str[9] == 0
      ensures forall k | 0 <= k < 9 ::
                str[k] == if k < |src| && k < reach then src[k] else if k < |src| && pad then 0 else old(str[k])
    {
      ret := |src|;
      var missing := CopyFromUser(Write(src, reach, pad), src, Min(|src|, SIZE - 1), reach, pad);
      if missing != 0 {
        ret := -EFAULT;
      }
      str[SIZE - 1] := 0;
    }

    method MyRead(off: nat, count: nat, room: nat) returns (t: Transfer)
      requires Good(str[..])
      ensures Answer(t) == Atomic(Read(off, count, room), str[..]).1
      ensures 0 !in t.bytes
      ensures exists n | 0 <= n < 10 :: IsText(str[..], n) && HandsBack(str[..n], off, count, room, t)
    {
      assert IsText(str[..], Strlen(str[..]));
      t := ReadFromBuffer(str[..][..Strlen(str[..])], off, count, room);
    }
  }

  // --- the calls byte by byte under my_lock ---------------------------------------------------------

  datatype Local =
    | Copy(i: nat)                                    // a write that has dealt with i bytes
    | Scan(i: nat)                                    // strlen has seen i non-zero bytes
    | Fetch(pos: nat, todo: nat, got: seq<byte>)      // a read that copies to the user
    | End                                             // nothing (more) to do
    | Stray

  function Left(c: Call, l: Local): nat {
    match l
    case Copy(i) => if c.Write? && i <= Wanted(c.src) then Wanted(c.src) - i + 1 else 0
    case Scan(i) => if c.Read? then (if i < SIZE then 2 * SIZE - i else 1) else 0
    case Fetch(_, todo, _) => todo
    case _ => 0
  }

  function Micro(c: Call, l: Local, s: seq<byte>): (Local, seq<byte>) {
    match l
    case Copy(i) =>
      if !c.Write? || |s| != SIZE then (Stray, s)
      else if i < Wanted(c.src) then (Copy(i + 1), if Touches(c, i) then s[i := Laid(c, i)] else s)
      else (End, s[SIZE - 1 := 0])
    case Scan(i) =>
      if !c.Read? || i >= SIZE || i >= |s| then (Stray, s)
      else if s[i] != 0 then (Scan(i + 1), s)
      else if c.off >= i || c.count == 0 then (End, s)
      else (Fetch(c.off, Min(Min(c.count, i - c.off), c.room), []), s)
    case Fetch(pos, todo, got) =>
      if todo == 0 || pos >= |s| then (Stray, s) else (Fetch(pos + 1, todo - 1, got + [s[pos]]), s)
    case _ => (l, s)
  }

  function Result(c: Call, l: Local): Answer {
    match l
    case End => Answer(if c.Write? then Transfer(WriteCode(c), [], 0) else Transfer(0, [], c.off))
    case Fetch(_, _, got) =>
      if !c.Read? then OutOfBounds
      else Answer(if got == [] then Transfer(-EFAULT, [], c.off) else Transfer(|got|, got, c.off + |got|))
    case _ => OutOfBounds
  }

  const STEPS: Object<Call, seq<byte>, Local, Answer> := Object(
    (c: Call) => None,
    (c: Call) => if c.Write? then Copy(0) else Scan(0),
    Left, Micro, Result)

  predicate Mid(c: Call, l: Local, s: seq<byte>) {
    Good(s) && !l.Stray? && (l.Fetch? ==> l.pos + l.todo <= SIZE) && (l.Scan? ==> l.i < SIZE && 0 !in s[..l.i])
    && (l.Scan? ==> c.Read?) && (l.Copy? ==> c.Write?)
  }

  lemma {:induction false} CopiesAreOneOverlay(c: Call, i: nat, s0: seq<byte>, s: seq<byte>)
    requires Progresses(STEPS) && c.Write? && i <= Wanted(c.src) && |s0| == |s| == SIZE
    requires forall k | 0 <= k < SIZE :: s[k] == if k < i then Overlay(s0, c)[k] else s0[k]
    ensures Run(STEPS, c, Copy(i), s) == (End, Overlay(s0, c)[SIZE - 1 := 0])
    decreases Wanted(c.src) - i
  {
    var (l1, s1) := Micro(c, Copy(i), s);
    if i < Wanted(c.src) {
      CopiesAreOneOverlay(c, i + 1, s0, s1);
    } else {
      assert s1 == Overlay(s0, c)[SIZE - 1 := 0];
      assert Run(STEPS, c, End, s1) == (End, s1);
    }
  }

  lemma {:induction false} FetchesAreOneSlice(c: Call, pos: nat, todo: nat, got: seq<byte>, s: seq<byte>)
    requires Progresses(STEPS) && pos + todo <= |s|
    ensures Run(STEPS, c, Fetch(pos, todo, got), s) == (Fetch(pos + todo, 0, got + s[pos..pos + todo]), s)
    decreases todo
  {
    if todo == 0 {
      assert got + s[pos..pos] == got;
    } else {
      FetchesAreOneSlice(c, pos + 1, todo - 1, got + [s[pos]], s);
      assert got + [s[pos]] + s[pos + 1..pos + todo] == got + s[pos..pos + todo];
    }
  }

  /** At the first zero strlen is done, and what is left is the copy to the user. */
  lemma EndIsRead(c: Call, s: seq<byte>)
    requires Progresses(STEPS) && c.Read? && Good(s)
    ensures var (l, s1) := Run(STEPS, c, Scan(Strlen(s)), s);
            s1 == s && Result(c, l) == Answer(ReadFromBuffer(s[..Strlen(s)], c.off, c.count, c.room))
  {
    var n := Strlen(s);
    var l1 := Micro(c, Scan(n), s).0;
    assert Run(STEPS, c, Scan(n), s) == Run(STEPS, c, l1, s);
    if l1 != End {
      FetchesAreOneSlice(c, c.off, l1.todo, [], s);
      assert [] + s[c.off..c.off + l1.todo] == s[..n][c.off..c.off + l1.todo];
    }
  }

  lemma {:induction false} ScanFindsTheEnd(c: Call, i: nat, s: seq<byte>)
    requires Progresses(STEPS) && c.Read? && Good(s) && i <= Strlen(s)
    ensures Run(STEPS, c, Scan(i), s) == Run(STEPS, c, Scan(Strlen(s)), s)
    decreases Strlen(s) - i
  {
    if i < Strlen(s) {
      ScanFindsTheEnd(c, i + 1, s);
      assert Micro(c, Scan(i), s) == (Scan(i + 1), s);
    }
  }

  lemma MidKeeps(c: Call, l: Local, s: seq<byte>)
    requires Mid(c, l, s) && Left(c, l) > 0
    ensures Mid(c, Micro(c, l, s).0, Micro(c, l, s).1)
  {
  }

  lemma ByteStepsImplementAtomicCalls()
    ensures Implements(STEPS, Atomic, Good, Mid)
  {
    assert Progresses(STEPS);
    forall c: Call, s | Good(s)
      ensures Whole(STEPS, c, s) == Atomic(c, s)
    {
      if c.Write? {
        CopiesAreOneOverlay(c, 0, s, s);
      } else {
        ScanFindsTheEnd(c, 0, s);
        EndIsRead(c, s);
      }
    }
    forall c: Call, l, s | Mid(c, l, s) && Left(c, l) > 0
      ensures Mid(c, Micro(c, l, s).0, Micro(c, l, s).1)
    {
      MidKeeps(c, l, s);
    }
  }

  // --- what the string is -----------------------------------------------------------------------------

  /** Byte `k` as the last write that touches it left it; `s0` when none did. */
  function LatestByte(s0: seq<byte>, log: seq<Entry<Call, Answer>>, k: nat): byte
    requires k < |s0|
  {
    if log == [] then s0[k]
    else
      var w := log[|log| - 1].op;
      if w.Write? && k < |w.src| && k < 9 && k < w.reach then w.src[k]
      else if w.Write? && k < |w.src| && k < 9 && w.pad then 0
      else LatestByte(s0, log[..|log| - 1], k)
  }

  /** The string those bytes make up, terminated. */
  function StringAfter(s0: seq<byte>, log: seq<Entry<Call, Answer>>): seq<byte>
    requires |s0| == SIZE
  {
    seq(SIZE, k requires 0 <= k < SIZE => if k == SIZE - 1 then 0 else LatestByte(s0, log, k))
  }

  lemma {:induction false} ReplayIsLatestBytes(s0: seq<byte>, log: seq<Entry<Call, Answer>>)
    requires Good(s0)
    ensures Replay(Atomic, s0, log) == StringAfter(s0, log)
    decreases |log|
  {
    if log != [] {
      ReplayIsLatestBytes(s0, log[..|log| - 1]);
    }
  }

  /** What a call that finds the string `s` answers: a read a slice of the text, a write its count, or -EFAULT when
      not all of the at most nine bytes could be fetched. */
  predicate Means(c: Call, s: seq<byte>, a: Answer) {
    a.Answer? &&
    match c
    case Read(off, count, room) =>
      exists n | 0 <= n < |s| :: IsText(s, n) && HandsBack(s[..n], off, count, room, a.t)
    case Write(src, reach, _) => a.t.code == if reach < Min(|src|, 9) then -EFAULT else |src|
  }

  /** Each call answers so for the string that the writes before it left. */
  predicate AnswersText(s0: seq<byte>, log: seq<Entry<Call, Answer>>, i: nat)
    requires |s0| == SIZE && i < |log|
  {
    Means(log[i].op, StringAfter(s0, log[..i]), log[i].ret)
  }

  lemma TextIsFound(s: seq<byte>)
    requires Good(s)
    ensures IsText(s, Strlen(s))
  {
    assert s[SIZE - 1] == 0;
  }

  lemma AtomicMeans(c: Call, s: seq<byte>)
    requires Good(s)
    ensures Means(c, s, Atomic(c, s).1)
  {
    TextIsFound(s);
  }

  lemma CallsAnswerText(s0: seq<byte>, log: seq<Entry<Call, Answer>>, i: nat)
    requires Good(s0) && Legal(Atomic, s0, log) && i < |log|
    ensures AnswersText(s0, log, i)
  {
    LegalAt(Atomic, s0, log, i);
    ReplayIsLatestBytes(s0, log[..i]);
    AtomicMeans(log[i].op, StringAfter(s0, log[..i]));
  }

  /** For every interleaving, faults in the middle of a copy included: the string is terminated in every
      state; in the order of unlocks, which respects real time, each byte is that of the last write over it,
      and every read returns a part of the text that the writes before it left. */
  lemma StringIsOverlay(s0: seq<byte>, run: seq<Action<Call>>)
    requires Good(s0) && After(STEPS, s0, run).Some?
    ensures var s, log := After(STEPS, s0, run).value, Order(STEPS, s0, run);
            && Explains(Atomic, s0, s.hist, log)
            && Good(s.data)
            && (s.owner.None? ==> s.data == StringAfter(s0, log))
    ensures var log := Order(STEPS, s0, run); forall i | 0 <= i < |log| :: AnswersText(s0, log, i)
  {
    ByteStepsImplementAtomicCalls();
    Linearizable(STEPS, Atomic, Good, Mid, s0, run);
    var log := Order(STEPS, s0, run);
    ReplayIsLatestBytes(s0, log);
    forall i | 0 <= i < |log|
      ensures AnswersText(s0, log, i)
    {
      CallsAnswerText(s0, log, i);
    }
  }
}
