/** The read and write devices under concurrency. A write stores one byte per step and sleeps in
    between, a read copies one byte per step; only `buf_mutex` keeps them apart. */
module BufferLinearizable {
  import opened Kernel
  import opened LockedObject
  import B = BufferDevice

  /** One call with its arguments. `room` is how much of the reader's buffer accepts bytes; `readable`
      whether the writer's bytes can be fetched. */
  datatype RawCall =
    | Read(off: nat, count: nat, room: nat)
    | Write(off: nat, src: seq<byte>, readable: bool)

  /** The VFS checks that offset plus count does not wrap. */
  type Call = c: RawCall | c.Write? ==> c.off + |c.src| < WORD witness Read(0, 0, 0)

  /** Private variables of a call that holds the mutex: a write has the bytes still to store and where,
      a read how many are still to be copied, from where, and those copied so far. Stray is reached
      only by an access outside the buffer. */
  datatype Local =
    | Storing(pos: nat, rest: seq<byte>)
    | Copying(pos: nat, todo: nat, got: seq<byte>)
    | Stray

  datatype Answer = Answer(t: Transfer) | OutOfBounds

  function Early(c: Call): Option<Answer> {
    match c
    case Read(off, count, _) => if off > B.LAST || count == 0 then Some(Answer(Transfer(0, [], off))) else None
    case Write(off, src, readable) =>
      if off > B.LAST then Some(Answer(Transfer(0, [], off)))
      else if !readable then Some(Answer(Transfer(-EFAULT, [], off)))
      else None
  }

  function Start(c: Call): Local {
    match c
    case Read(off, count, room) =>
      if off > B.LAST then Stray else Copying(off, Min(Min(count, B.SIZE - off), room), [])
    case Write(off, src, _) =>
      if off > B.LAST then Stray
      else
        var n := B.ClampCount(off, |src|);
        if n > |src| then Stray else Storing(off, src[..n])
  }

  function Left(c: Call, l: Local): nat {
    match l
    case Storing(_, rest) => |rest|
    case Copying(_, todo, _) => todo
    case Stray => 0
  }

  function Micro(c: Call, l: Local, b: seq<byte>): (Local, seq<byte>) {
    match l
    case Storing(pos, rest) =>
      if rest == [] || pos >= |b| then (Stray, b) else (Storing(pos + 1, rest[1..]), b[pos := rest[0]])
    case Copying(pos, todo, got) =>
      if todo == 0 || pos >= |b| then (Stray, b) else (Copying(pos + 1, todo - 1, got + [b[pos]]), b)
    case Stray => (Stray, b)
  }

  function Result(c: Call, l: Local): Answer {
    match l
    case Storing(pos, _) =>
      if pos >= c.off then Answer(Transfer(pos - c.off, [], pos)) else OutOfBounds
    case Copying(_, _, got) =>
      if got == [] then Answer(Transfer(-EFAULT, [], c.off)) else Answer(Transfer(|got|, got, c.off + |got|))
    case Stray => OutOfBounds
  }

  const STEPS: Object<Call, seq<byte>, Local, Answer> := Object(Early, Start, Left, Micro, Result)

  /** The atomic register file: each call is one step of the sequential devices. */
  function Atomic(c: Call, b: seq<byte>): (seq<byte>, Answer) {
    match c
    case Read(off, count, room) => (b, Answer(B.ReadCall(b, off, count, room)))
    case Write(off, src, readable) =>
      if !B.Good(b) then (b, OutOfBounds)
      else
        var (b1, t) := B.WriteCall(b, off, src, readable);
        (b1, Answer(t))
  }

  /** While the mutex is held: the buffer is still terminated, and the holder is inside it. */
  predicate Mid(c: Call, l: Local, b: seq<byte>) {
    && B.Good(b)
    && match l
       case Storing(pos, rest) => c.Write? && pos + |rest| <= B.LAST
       case Copying(pos, todo, _) => c.Read? && pos + todo <= B.SIZE
       case Stray => false
  }

  /** All the stores of one write, one after another, are one splice. */
  lemma {:induction false} StoresAreOneSplice(c: Call, pos: nat, rest: seq<byte>, b: seq<byte>)
    requires Progresses(STEPS) && pos + |rest| <= |b|
    ensures Run(STEPS, c, Storing(pos, rest), b) == (Storing(pos + |rest|, []), B.Splice(b, pos, rest))
    decreases |rest|
  {
    if rest == [] {
      assert B.Splice(b, pos, rest) == b;
    } else {
      StoresAreOneSplice(c, pos + 1, rest[1..], b[pos := rest[0]]);
      assert B.Splice(b[pos := rest[0]], pos + 1, rest[1..]) == B.Splice(b, pos, rest);
    }
  }

  /** All the copies of one read are one slice. */
  lemma {:induction false} CopiesAreOneSlice(c: Call, pos: nat, todo: nat, got: seq<byte>, b: seq<byte>)
    requires Progresses(STEPS) && pos + todo <= |b|
    ensures Run(STEPS, c, Copying(pos, todo, got), b) == (Copying(pos + todo, 0, got + b[pos..pos + todo]), b)
    decreases todo
  {
    if todo == 0 {
      assert got + b[pos..pos] == got;
    } else {
      CopiesAreOneSlice(c, pos + 1, todo - 1, got + [b[pos]], b);
      assert got + [b[pos]] + b[pos + 1..pos + todo] == got + b[pos..pos + todo];
    }
  }

  lemma ReadIsAtomic(c: Call, b: seq<byte>)
    requires Progresses(STEPS) && B.Good(b) && c.Read?
    ensures Whole(STEPS, c, b) == Atomic(c, b)
  {
    if Early(c).None? {
      var todo := Min(Min(c.count, B.SIZE - c.off), c.room);
      CopiesAreOneSlice(c, c.off, todo, [], b);
      assert [] + b[c.off..c.off + todo] == b[c.off..c.off + todo];
    }
  }

  lemma WriteIsAtomic(c: Call, b: seq<byte>)
    requires Progresses(STEPS) && B.Good(b) && c.Write?
    ensures Whole(STEPS, c, b) == Atomic(c, b)
    ensures B.Good(Atomic(c, b).0)
  {
    if Early(c).None? {
      B.ClampCountIsLeast(c.off, |c.src|);
      StoresAreOneSplice(c, c.off, c.src[..B.ClampCount(c.off, |c.src|)], b);
    }
  }

  /** The byte-by-byte devices implement the atomic register file. */
  lemma ByteStepsImplementAtomicCalls()
    ensures Implements(STEPS, Atomic, B.Good, Mid)
  {
    assert Progresses(STEPS);
    forall c: Call, b | B.Good(b)
      ensures Whole(STEPS, c, b) == Atomic(c, b) && B.Good(Atomic(c, b).0)
    {
      if c.Read? { ReadIsAtomic(c, b); } else { WriteIsAtomic(c, b); }
    }
    forall c: Call, b | B.Good(b) && Early(c).None?
      ensures Mid(c, Start(c), b)
    {
      if c.Write? {
        B.ClampCountIsLeast(c.off, |c.src|);
      }
    }
  }

  /** For any number of threads and any interleaving of single-byte steps: the order in which the calls
      release the mutex respects real time and explains every answer and, when the mutex is free, the buffer; no access
      leaves the buffer, and byte 127 is zero in every state, half-done writes included. */
  lemma BufferIsLinearizable(b0: seq<byte>, run: seq<Action<Call>>)
    requires B.Good(b0) && After(STEPS, b0, run).Some?
    ensures var s, log := After(STEPS, b0, run).value, Order(STEPS, b0, run);
            && Explains(Atomic, b0, s.hist, log)
            && (s.owner.None? ==> s.data == Replay(Atomic, b0, log))
            && B.Good(s.data)
            && (forall i | 0 <= i < |s.hist| && s.hist[i].Return? :: s.hist[i].ret.Answer?)
  {
    ByteStepsImplementAtomicCalls();
    Linearizable(STEPS, Atomic, B.Good, Mid, b0, run);
    var log := Order(STEPS, b0, run);
    var s := After(STEPS, b0, run).value;
    forall i | 0 <= i < |s.hist| && s.hist[i].Return?
      ensures s.hist[i].ret.Answer?
    {
      assert Logged(log, s.hist[i].c);
      var k :| 0 <= k < |log| && log[k].c == s.hist[i].c;
      AnswersAreInBounds(b0, log, k);
    }
  }

  /** What an entry of the order answers, said of the buffer `b` that it finds and the one it leaves. */
  predicate EntryMeans(e: Entry<Call, Answer>, b: seq<byte>, b': seq<byte>) {
    e.ret.Answer? &&
    match e.op
    case Read(off, count, room) => b' == b && HandsBack(b, off, count, room, e.ret.t)
    case Write(off, src, readable) => |src| + off < WORD && B.WriteMeans(b, off, src, readable, b', e.ret.t)
  }

  lemma AtomicMeans(c: Call, b: seq<byte>)
    requires B.Good(b)
    ensures var (b', ret) := Atomic(c, b); EntryMeans(Entry(0, c, ret), b, b') && B.Good(b')
  {
  }

  /** Every call of every run answers as it should at its place in the order. */
  lemma EveryEntryMeans(b0: seq<byte>, run: seq<Action<Call>>, k: nat)
    requires B.Good(b0) && After(STEPS, b0, run).Some? && k < |Order(STEPS, b0, run)|
    ensures var log := Order(STEPS, b0, run);
            EntryMeans(log[k], Replay(Atomic, b0, log[..k]), Replay(Atomic, b0, log[..k + 1]))
  {
    ByteStepsImplementAtomicCalls();
    Linearizable(STEPS, Atomic, B.Good, Mid, b0, run);
    LegalEntryMeans(b0, Order(STEPS, b0, run), k);
  }

  lemma LegalEntryMeans(b0: seq<byte>, log: seq<Entry<Call, Answer>>, k: nat)
    requires B.Good(b0) && Legal(Atomic, b0, log) && k < |log|
    ensures EntryMeans(log[k], Replay(Atomic, b0, log[..k]), Replay(Atomic, b0, log[..k + 1]))
  {
    LegalAt(Atomic, b0, log, k);
    ReplayIsGood(b0, log[..k]);
    assert log[..k + 1][..k] == log[..k];
    AtomicMeans(log[k].op, Replay(Atomic, b0, log[..k]));
  }

  lemma {:induction false} ReplayIsGood(b0: seq<byte>, log: seq<Entry<Call, Answer>>)
    requires B.Good(b0)
    ensures B.Good(Replay(Atomic, b0, log))
    decreases |log|
  {
    if log != [] {
      ReplayIsGood(b0, log[..|log| - 1]);
    }
  }

  lemma {:induction false} AnswersAreInBounds(b0: seq<byte>, log: seq<Entry<Call, Answer>>, k: nat)
    requires B.Good(b0) && Legal(Atomic, b0, log) && k < |log|
    ensures B.Good(Replay(Atomic, b0, log)) && log[k].ret.Answer?
    decreases |log|
  {
    var last := |log| - 1;
    if last == 0 {
      assert log[..last] == [];
    } else {
      AnswersAreInBounds(b0, log[..last], if k < last then k else 0);
    }
  }
}
