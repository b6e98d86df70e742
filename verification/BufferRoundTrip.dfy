/** The buffer with one program that writes its data in chunks, and any number of readers, in any interleaving of
    single-byte steps: the buffer ends as if the program had been alone, and who reads afterwards reads that. */
module BufferRoundTrip {
  import opened Kernel
  import opened LockedObject
  import B = BufferDevice
  import opened BufferLinearizable

  type Run = seq<Action<Call>>
  type Buffer = State<Call, seq<byte>, Local, Answer>
  type Calls = map<CallId, Pc<Call, Local, Answer>>
  type Log = seq<Entry<Call, Answer>>

  // --- the programs ---------------------------------------------------------------------------------------

  predicate Done(calls: Calls, c: CallId) { c in calls && calls[c].Returned? && calls[c].ret.Answer? }

  /** A program that writes what is left of its data until write returns 0. */
  predicate WritesOn(calls: Calls, ws: seq<CallId>, off: nat, data: seq<byte>)
    requires off + |data| < WORD
  {
    && ws != [] && Done(calls, ws[0]) && calls[ws[0]].op == Write(off, data, true)
    && var t := calls[ws[0]].ret.t;
       if t.code == 0 then |ws| == 1
       else 0 < t.code <= |data| && t.off == off + t.code && WritesOn(calls, ws[1..], t.off, data[t.code..])
  }

  /** A program that reads with one count after another, each from where the one before ended. */
  predicate ReadsOn(calls: Calls, rs: seq<CallId>, off: nat, counts: seq<nat>) {
    |rs| == |counts| &&
    (rs == [] ||
     (&& Done(calls, rs[0]) && calls[rs[0]].op == Read(off, counts[0], counts[0])
      && ReadsOn(calls, rs[1..], calls[rs[0]].ret.t.off, counts[1..])))
  }

  /** The bytes such a program has collected. */
  function Collected(calls: Calls, rs: seq<CallId>): seq<byte>
    requires forall i | 0 <= i < |rs| :: Done(calls, rs[i])
  {
    if rs == [] then []
    else
      assert Done(calls, rs[0]);
      calls[rs[0]].ret.t.bytes + Collected(calls, rs[1..])
  }

  /** Call `a` returned before call `b` was made. */
  ghost predicate Precedes(hist: seq<Event<Call, Answer>>, a: CallId, b: CallId) {
    exists i, j | 0 <= i < j < |hist| ::
      hist[i].Return? && hist[j].Invoke? && hist[i].c == a && hist[j].c == b
  }

  /** The calls `ws` are made one after the other, have all returned, and no other call writes. */
  ghost predicate OnlyWriter(s: Buffer, ws: seq<CallId>) {
    && (forall i | 0 <= i < |ws| :: Done(s.calls, ws[i]) && s.calls[ws[i]].op.Write?)
    && (forall i, j | 0 <= i < j < |ws| :: ws[i] != ws[j] && Precedes(s.hist, ws[i], ws[j]))
    && (forall c | c in s.calls && s.calls[c].op.Write? :: c in ws)
  }

  // --- where the writes are in the order ------------------------------------------------------------------

  /** The buffer after some of the calls. */
  function Writing(b: seq<byte>, calls: Calls, ws: seq<CallId>): seq<byte>
    requires forall i | 0 <= i < |ws| :: ws[i] in calls
  {
    if ws == [] then b else Atomic(calls[ws[|ws| - 1]].op, Writing(b, calls, ws[..|ws| - 1])).0
  }

  lemma PrecedesIsBefore(hist: seq<Event<Call, Answer>>, log: Log, a: CallId, b: CallId)
    requires RealTime(hist, log) && Precedes(hist, a, b)
    ensures Before(log, a, b)
  {
  }

  /** Some entry before place `k` is that of the call. */
  predicate LoggedBefore(log: Log, k: nat, c: CallId)
    requires k <= |log|
  {
    exists p | 0 <= p < k :: log[p].c == c
  }

  lemma OneMoreEntry(log: Log, k: nat, c: CallId)
    requires k < |log|
    ensures LoggedBefore(log, k + 1, c) <==> LoggedBefore(log, k, c) || log[k].c == c
  {
    if LoggedBefore(log, k, c) {
      var p :| 0 <= p < k && log[p].c == c;
      assert log[p].c == c;
    }
    if log[k].c == c {
      assert log[k].c == c;
    }
  }

  /** A call that returned before the one at place `k` was made is in the order before it ... */
  lemma EarlierIsThere(s: Buffer, log: Log, a: CallId, k: nat)
    requires LogMatches(s, log) && Done(s.calls, a) && k < |log| && Precedes(s.hist, a, log[k].c)
    ensures LoggedBefore(log, k, a)
  {
    PrecedesIsBefore(s.hist, log, a, log[k].c);
    IsThere(s, log, a);
    var p :| 0 <= p < |log| && log[p].c == a;
    assert p < k;
  }

  lemma IsThere(s: Buffer, log: Log, a: CallId)
    requires LogMatches(s, log) && Done(s.calls, a)
    ensures LoggedBefore(log, |log|, a)
  {
    assert Logged(log, a);
  }

  /** ... and the call itself is not. */
  lemma NotBeforeItself(s: Buffer, log: Log, k: nat)
    requires LogMatches(s, log) && k < |log|
    ensures !LoggedBefore(log, k, log[k].c)
    ensures log[k].c in s.calls && s.calls[log[k].c].op == log[k].op
  {
  }

  lemma WriterHas(s: Buffer, ws: seq<CallId>, c: CallId) returns (i: nat)
    requires OnlyWriter(s, ws) && c in s.calls && s.calls[c].op.Write?
    ensures i < |ws| && ws[i] == c
    ensures forall j | 0 <= j < i :: Done(s.calls, ws[j]) && Precedes(s.hist, ws[j], c)
  {
    assert c in ws;
    i :| 0 <= i < |ws| && ws[i] == c;
  }

  /** Before place `k` are the first `m` calls of a program and no others. */
  predicate FirstLogged(log: Log, k: nat, ws: seq<CallId>, m: nat)
    requires k <= |log|
  {
    forall i | 0 <= i < |ws| :: LoggedBefore(log, k, ws[i]) <==> i < m
  }

  lemma NoneSkipped(s: Buffer, log: Log, ws: seq<CallId>, k: nat, m: nat, i: nat)
    requires LogMatches(s, log) && k < |log| && m <= |ws| && i < |ws| && FirstLogged(log, k, ws, m)
    requires ws[i] == log[k].c && !LoggedBefore(log, k, log[k].c)
    requires forall j | 0 <= j < i :: Done(s.calls, ws[j]) && Precedes(s.hist, ws[j], log[k].c)
    ensures i == m
  {
    if m < i {
      EarlierIsThere(s, log, ws[m], k);
    }
  }

  /** The write at place `k` of the order is the next one of the program. */
  lemma NextWrite(s: Buffer, log: Log, ws: seq<CallId>, k: nat, m: nat)
    requires LogMatches(s, log) && OnlyWriter(s, ws) && k < |log| && log[k].op.Write?
    requires m <= |ws| && FirstLogged(log, k, ws, m)
    ensures m < |ws| && log[k].c == ws[m]
  {
    NotBeforeItself(s, log, k);
    var i := WriterHas(s, ws, log[k].c);
    NoneSkipped(s, log, ws, k, m, i);
  }

  /** One more entry of the order, and what it does to the buffer. */
  lemma OneMoreCall(s: Buffer, log: Log, ws: seq<CallId>, b0: seq<byte>, k: nat, m: nat)
    requires LogMatches(s, log) && OnlyWriter(s, ws) && k < |log| && m <= |ws|
    requires Replay(Atomic, b0, log[..k]) == Writing(b0, s.calls, ws[..m])
    ensures log[k].op.Read? ==> Replay(Atomic, b0, log[..k + 1]) == Writing(b0, s.calls, ws[..m])
    ensures log[k].op.Write? && m < |ws| && log[k].c == ws[m] ==>
              Replay(Atomic, b0, log[..k + 1]) == Writing(b0, s.calls, ws[..m + 1])
  {
    NotBeforeItself(s, log, k);
    assert log[..k + 1][..k] == log[..k];
    if m < |ws| {
      assert ws[..m + 1][..m] == ws[..m];
    }
  }

  lemma OneMoreLogged(s: Buffer, log: Log, ws: seq<CallId>, k: nat, m: nat)
    requires LogMatches(s, log) && OnlyWriter(s, ws) && k < |log| && m <= |ws| && FirstLogged(log, k, ws, m)
    ensures log[k].op.Read? ==> FirstLogged(log, k + 1, ws, m)
    ensures log[k].op.Write? ==> m < |ws| && log[k].c == ws[m] && FirstLogged(log, k + 1, ws, m + 1)
  {
    NotBeforeItself(s, log, k);
    if log[k].op.Write? {
      NextWrite(s, log, ws, k, m);
    }
    forall i | 0 <= i < |ws|
      ensures LoggedBefore(log, k + 1, ws[i]) <==> LoggedBefore(log, k, ws[i]) || log[k].c == ws[i]
    {
      OneMoreEntry(log, k, ws[i]);
    }
  }

  /** Before place `k` the program's first `m` writes, and no others, have been done. */
  predicate WrittenUpTo(s: Buffer, log: Log, ws: seq<CallId>, b0: seq<byte>, k: nat, m: nat)
    requires k <= |log| && forall i | 0 <= i < |ws| :: ws[i] in s.calls
  {
    m <= |ws| && FirstLogged(log, k, ws, m) && Replay(Atomic, b0, log[..k]) == Writing(b0, s.calls, ws[..m])
  }

  lemma OneMorePlace(s: Buffer, log: Log, ws: seq<CallId>, b0: seq<byte>, k: nat, m: nat)
    requires LogMatches(s, log) && OnlyWriter(s, ws) && k < |log| && WrittenUpTo(s, log, ws, b0, k, m)
    ensures WrittenUpTo(s, log, ws, b0, k + 1, if log[k].op.Write? then m + 1 else m)
  {
    OneMoreLogged(s, log, ws, k, m);
    OneMoreCall(s, log, ws, b0, k, m);
  }

  lemma NothingYet(s: Buffer, log: Log, ws: seq<CallId>, b0: seq<byte>)
    requires forall i | 0 <= i < |ws| :: ws[i] in s.calls
    ensures WrittenUpTo(s, log, ws, b0, 0, 0)
  {
  }

  /** At each place of the order that is so for some `m`. */
  lemma {:induction false} WritesUpTo(s: Buffer, log: Log, ws: seq<CallId>, b0: seq<byte>, k: nat) returns (m: nat)
    requires LogMatches(s, log) && OnlyWriter(s, ws) && k <= |log|
    ensures WrittenUpTo(s, log, ws, b0, k, m)
  {
    if k == 0 {
      m := 0;
      NothingYet(s, log, ws, b0);
    } else {
      m := WritesUpTo(s, log, ws, b0, k - 1);
      OneMorePlace(s, log, ws, b0, k - 1, m);
      m := if log[k - 1].op.Write? then m + 1 else m;
    }
  }

  // --- what the program wrote -----------------------------------------------------------------------------

  /** Each answer is that of the atomic call, which for a write is the same on every buffer. */
  ghost predicate Answered(calls: Calls, ws: seq<CallId>) {
    forall i, b | 0 <= i < |ws| && B.Good(b) ::
      ws[i] in calls && calls[ws[i]].Returned? && calls[ws[i]].ret == Atomic(calls[ws[i]].op, b).1
  }

  lemma SameAnswer(c: Call, b: seq<byte>, b': seq<byte>)
    requires c.Write? && B.Good(b) && B.Good(b')
    ensures Atomic(c, b).1 == Atomic(c, b').1 && B.Good(Atomic(c, b).0)
  {
  }

  lemma WritesAreAnswered(s: Buffer, log: Log, ws: seq<CallId>, b0: seq<byte>)
    requires B.Good(b0) && LogMatches(s, log) && Legal(Atomic, b0, log) && OnlyWriter(s, ws)
    ensures Answered(s.calls, ws)
  {
    forall i, b | 0 <= i < |ws| && B.Good(b)
      ensures s.calls[ws[i]].ret == Atomic(s.calls[ws[i]].op, b).1
    {
      assert Logged(log, ws[i]);
      var k :| 0 <= k < |log| && log[k].c == ws[i];
      LegalAt(Atomic, b0, log, k);
      ReplayIsGood(b0, log[..k]);
      SameAnswer(log[k].op, Replay(Atomic, b0, log[..k]), b);
    }
  }

  lemma {:induction false} FirstWriteFirst(b: seq<byte>, calls: Calls, ws: seq<CallId>)
    requires ws != [] && forall i | 0 <= i < |ws| :: ws[i] in calls
    ensures Writing(b, calls, ws) == Writing(Atomic(calls[ws[0]].op, b).0, calls, ws[1..])
    decreases |ws|
  {
    if |ws| == 1 {
      assert ws[..0] == [] && ws[1..] == [];
    } else {
      FirstWriteFirst(b, calls, ws[..|ws| - 1]);
      assert ws[..|ws| - 1][1..] == ws[1..][..|ws| - 2];
    }
  }

  /** The program's calls, one after another, are the chunked write. */
  lemma {:induction false} WritesAreWriteAll(b: seq<byte>, calls: Calls, ws: seq<CallId>, off: nat, data: seq<byte>)
    requires B.Good(b) && off + |data| < WORD && WritesOn(calls, ws, off, data) && Answered(calls, ws)
    requires forall i | 0 <= i < |ws| :: ws[i] in calls
    ensures Writing(b, calls, ws) == B.WriteAll(b, off, data).b
    decreases |ws|
  {
    var (b1, t) := B.WriteCall(b, off, data, true);
    assert calls[ws[0]].ret == Atomic(calls[ws[0]].op, b).1 == Answer(t);
    FirstWriteFirst(b, calls, ws);
    if t.code == 0 {
      assert ws[1..] == [];
    } else {
      assert forall i | 0 <= i < |ws[1..]| :: ws[1..][i] == ws[i + 1];
      WritesAreWriteAll(b1, calls, ws[1..], t.off, data[t.code..]);
    }
  }

  // --- the theorems ---------------------------------------------------------------------------------------

  /** The order of a run explains it. */
  ghost predicate Ordered(b0: seq<byte>, s: Buffer, log: Log) {
    && B.Good(b0) && LogMatches(s, log) && Legal(Atomic, b0, log)
    && (s.owner.None? ==> s.data == Replay(Atomic, b0, log))
  }

  lemma RunIsOrdered(b0: seq<byte>, run: Run)
    requires B.Good(b0) && After(STEPS, b0, run).Some?
    ensures Ordered(b0, After(STEPS, b0, run).value, Order(STEPS, b0, run))
  {
    ByteStepsImplementAtomicCalls();
    Linearizable(STEPS, Atomic, B.Good, Mid, b0, run);
  }

  /** Where all writes are in the order, the buffer is what they make of it. */
  lemma AllWritten(s: Buffer, log: Log, ws: seq<CallId>, b0: seq<byte>, k: nat)
    requires LogMatches(s, log) && OnlyWriter(s, ws) && k <= |log|
    requires k == |log| || forall i | 0 <= i < |ws| :: Precedes(s.hist, ws[i], log[k].c)
    ensures Replay(Atomic, b0, log[..k]) == Writing(b0, s.calls, ws)
  {
    var m := WritesUpTo(s, log, ws, b0, k);
    if m < |ws| {
      assert Done(s.calls, ws[m]);
      if k < |log| {
        EarlierIsThere(s, log, ws[m], k);
      } else {
        IsThere(s, log, ws[m]);
      }
    }
    assert ws[..m] == ws;
  }

  /** The program has written its data from `off` on, and nobody else writes. */
  ghost predicate HasWritten(s: Buffer, ws: seq<CallId>, off: nat, data: seq<byte>) {
    off + |data| < WORD && OnlyWriter(s, ws) && WritesOn(s.calls, ws, off, data)
  }

  lemma WrittenIs(b0: seq<byte>, s: Buffer, log: Log, ws: seq<CallId>, off: nat, data: seq<byte>)
    requires Ordered(b0, s, log) && HasWritten(s, ws, off, data)
    ensures forall i | 0 <= i < |ws| :: ws[i] in s.calls
    ensures Writing(b0, s.calls, ws) == B.WriteAll(b0, off, data).b
  {
    WritesAreAnswered(s, log, ws, b0);
    WritesAreWriteAll(b0, s.calls, ws, off, data);
  }

  lemma OrderedEnds(b0: seq<byte>, s: Buffer, log: Log, ws: seq<CallId>, off: nat, data: seq<byte>)
    requires Ordered(b0, s, log) && HasWritten(s, ws, off, data) && s.owner.None?
    ensures s.data == B.WriteAll(b0, off, data).b
  {
    AllWritten(s, log, ws, b0, |log|);
    assert log[..|log|] == log;
    WrittenIs(b0, s, log, ws, off, data);
  }

  lemma OrderedRead(b0: seq<byte>, s: Buffer, log: Log, ws: seq<CallId>, off: nat,
                    data: seq<byte>, c: CallId)
    requires Ordered(b0, s, log) && HasWritten(s, ws, off, data) && Done(s.calls, c)
    requires forall i | 0 <= i < |ws| :: Precedes(s.hist, ws[i], c)
    ensures s.calls[c].ret == Atomic(s.calls[c].op, B.WriteAll(b0, off, data).b).1
  {
    IsThere(s, log, c);
    var k :| 0 <= k < |log| && log[k].c == c;
    AllWritten(s, log, ws, b0, k);
    WrittenIs(b0, s, log, ws, off, data);
    LegalAt(Atomic, b0, log, k);
  }

  /** When the program has written all, and nobody is inside, the buffer is what the chunked write alone makes of it:
      one splice of what fits. */
  lemma BufferEndsAsSplice(b0: seq<byte>, run: Run, ws: seq<CallId>, off: nat, data: seq<byte>)
    requires B.Good(b0) && After(STEPS, b0, run).Some?
    requires HasWritten(After(STEPS, b0, run).value, ws, off, data) && After(STEPS, b0, run).value.owner.None?
    ensures After(STEPS, b0, run).value.data == if off <= B.LAST then B.Splice(b0, off, B.Fitting(off, data)) else b0
  {
    RunIsOrdered(b0, run);
    OrderedEnds(b0, After(STEPS, b0, run).value, Order(STEPS, b0, run), ws, off, data);
    B.ChunkedWriteIsOneSplice(b0, off, data);
  }

  /** A call that is made when all is written finds that buffer. */
  lemma LaterReadsSeeIt(b0: seq<byte>, run: Run, ws: seq<CallId>, off: nat, data: seq<byte>, c: CallId)
    requires B.Good(b0) && After(STEPS, b0, run).Some? && HasWritten(After(STEPS, b0, run).value, ws, off, data)
    requires Done(After(STEPS, b0, run).value.calls, c)
    requires forall i | 0 <= i < |ws| :: Precedes(After(STEPS, b0, run).value.hist, ws[i], c)
    ensures var pc := After(STEPS, b0, run).value.calls[c];
            pc.ret == Atomic(pc.op, B.WriteAll(b0, off, data).b).1
  {
    RunIsOrdered(b0, run);
    OrderedRead(b0, After(STEPS, b0, run).value, Order(STEPS, b0, run), ws, off, data, c);
  }

  lemma {:induction false} CollectedIsReadAll(calls: Calls, rs: seq<CallId>, b: seq<byte>, off: nat, counts: seq<nat>)
    requires ReadsOn(calls, rs, off, counts)
    requires forall i | 0 <= i < |rs| :: Done(calls, rs[i]) && calls[rs[i]].ret == Atomic(calls[rs[i]].op, b).1
    ensures Collected(calls, rs) == B.ReadAll(b, off, counts).bytes
    decreases |rs|
  {
    if rs != [] {
      var t := B.ReadCall(b, off, counts[0], counts[0]);
      assert calls[rs[0]].ret == Answer(t);
      assert forall i | 0 <= i < |rs[1..]| :: rs[1..][i] == rs[i + 1];
      CollectedIsReadAll(calls, rs[1..], b, t.off, counts[1..]);
    }
  }

  /** The program `rs` reads with these counts from offset 0 on, when all is written. */
  ghost predicate ReadsAfter(s: Buffer, ws: seq<CallId>, rs: seq<CallId>, counts: seq<nat>) {
    && (forall j | 0 <= j < |rs| :: Done(s.calls, rs[j]))
    && (forall i, j | 0 <= i < |ws| && 0 <= j < |rs| :: Precedes(s.hist, ws[i], rs[j]))
    && ReadsOn(s.calls, rs, 0, counts)
  }

  lemma OrderedRoundTrip(b0: seq<byte>, s: Buffer, log: Log, ws: seq<CallId>, data: seq<byte>,
                         rs: seq<CallId>, counts: seq<nat>)
    requires Ordered(b0, s, log) && HasWritten(s, ws, 0, data) && ReadsAfter(s, ws, rs, counts)
    requires |data| <= B.LAST && B.Sum(counts) == |data|
    ensures Collected(s.calls, rs) == data
  {
    var b := B.WriteAll(b0, 0, data).b;
    forall j | 0 <= j < |rs|
      ensures s.calls[rs[j]].ret == Atomic(s.calls[rs[j]].op, b).1
    {
      OrderedRead(b0, s, log, ws, 0, data, rs[j]);
    }
    CollectedIsReadAll(s.calls, rs, b, 0, counts);
    B.RoundTrip(b0, data, counts);
  }

  /** The round trip under concurrency: data of at most 127 bytes written in chunks from offset 0, while others read as
      they like, are what a program collects that reads from offset 0 when the writing is done. */
  lemma RoundTripAmongReaders(b0: seq<byte>, run: Run, ws: seq<CallId>, data: seq<byte>, rs: seq<CallId>,
                              counts: seq<nat>)
    requires B.Good(b0) && After(STEPS, b0, run).Some? && |data| <= B.LAST && B.Sum(counts) == |data|
    requires HasWritten(After(STEPS, b0, run).value, ws, 0, data)
    requires ReadsAfter(After(STEPS, b0, run).value, ws, rs, counts)
    ensures Collected(After(STEPS, b0, run).value.calls, rs) == data
  {
    RunIsOrdered(b0, run);
    OrderedRoundTrip(b0, After(STEPS, b0, run).value, Order(STEPS, b0, run), ws, data, rs, counts);
  }
}
