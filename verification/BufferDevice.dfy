/** The read and write devices over the shared 128-byte buffer: the clamped five-byte write, the loop that
    stores one byte at a time, writes in chunks, and reads in chunks. */
module BufferDevice {
  import opened Kernel

  const SIZE: int := 128
  const LAST: int := 127     // the highest offset a write accepts; the byte there is never stored
  const CHUNK: int := 5      // the most one write call stores

  /** The contents of the buffer between calls: 128 bytes, of which the last is the terminating zero. */
  predicate Good(b: seq<byte>) {
    |b| == SIZE && b[LAST] == 0
  }

  /** The two tests on count at the head of `buf_write`, in the kernel's 64-bit unsigned arithmetic. */
  function ClampCount(off: nat, count: nat): nat
    requires off <= LAST
  {
    var fits := if (off + count) % WORD > LAST then LAST - off else count;
    if fits > CHUNK then CHUNK else fits
  }

  /** For the calls the VFS lets through, where offset plus count does not wrap, the clamped count is the
      least of what was asked for, what fits before the last byte, and five. */
  lemma ClampCountIsLeast(off: nat, count: nat)
    requires off <= LAST && off + count < WORD
    ensures ClampCount(off, count) == Min(CHUNK, Min(count, LAST - off))
  {
  }

  /** The store stays in front of the last byte exactly when the sum does not wrap or five bytes fit. */
  lemma ClampStaysInside(off: nat, count: nat)
    requires off <= LAST && count < WORD
    ensures off + ClampCount(off, count) <= 127 <==> off + count < 0x1_0000_0000_0000_0000 || off + 5 <= 127
  {
    if off + count >= WORD {
      assert (off + count) % WORD == off + count - WORD;
    }
  }

  /** `b` with `chunk` written over it from `off` on. */
  function Splice(b: seq<byte>, off: nat, chunk: seq<byte>): (r: seq<byte>)
    requires off + |chunk| <= |b|
    ensures |r| == |b|
  {
    b[..off] + chunk + b[off + |chunk|..]
  }

  /** Two chunks, one behind the other, are one chunk. */
  lemma SpliceJoins(b: seq<byte>, off: nat, first: seq<byte>, second: seq<byte>)
    requires off + |first| + |second| <= |b|
    ensures Splice(Splice(b, off, first), off + |first|, second) == Splice(b, off, first + second)
  {
    var left := Splice(Splice(b, off, first), off + |first|, second);
    var right := Splice(b, off, first + second);
    forall k | 0 <= k < |b| ensures left[k] == right[k] {
    }
  }

  /** A write call as one atomic step. `readable` says whether the whole copy from user space succeeds. */
  function WriteCall(b: seq<byte>, off: nat, src: seq<byte>, readable: bool): (seq<byte>, Transfer)
    requires Good(b) && off + |src| < WORD
  {
    if off > LAST then (b, Transfer(0, [], off))
    else if !readable then (b, Transfer(-EFAULT, [], off))
    else
      var n := Min(CHUNK, Min(|src|, LAST - off));
      (Splice(b, off, src[..n]), Transfer(n, [], off + n))
  }

  /** A read call as one atomic step. */
  function ReadCall(b: seq<byte>, off: nat, count: nat, room: nat): Transfer {
    ReadFromBuffer(b, off, count, room)
  }

  /** What a write does and answers, said of the buffer after it. */
  predicate WriteMeans(b: seq<byte>, off: nat, src: seq<byte>, readable: bool, b': seq<byte>, t: Transfer) {
    && t.bytes == [] && |b'| == |b| == 128
    && (if off > 127 then t.code == 0
        else if !readable then t.code == -14
        else 0 <= t.code <= 5 && t.code <= |src| && off + t.code <= 127 &&
             (t.code == 5 || t.code == |src| || off + t.code == 127))
    && t.off == (if t.code > 0 then off + t.code else off)
    && (forall k | 0 <= k < 128 :: b'[k] == if off <= k < off + t.code then src[k - off] else b[k])
  }

  lemma WriteCallMeans(b: seq<byte>, off: nat, src: seq<byte>, readable: bool)
    requires Good(b) && off + |src| < WORD
    ensures var (b', t) := WriteCall(b, off, src, readable); WriteMeans(b, off, src, readable, b', t)
  {
  }

  /** The devices as they run under `buf_mutex`: the global buffer, changed in place. */
  class Device {
    const buffer: array<byte>

    constructor ()
      ensures fresh(buffer) && Good(buffer[..])
      ensures forall k | 0 <= k < SIZE :: buffer[k] == 0
    {
      buffer := new byte[SIZE](_ => 0);
    }

    method BufRead(off: nat, count: nat, room: nat) returns (t: Transfer)
      requires Good(buffer[..])
      ensures t == ReadCall(buffer[..], off, count, room)
      ensures HandsBack(buffer[..], off, count, room, t)
    {
      if off > LAST || count == 0 {
        return Transfer(0, [], off);
      }
      t := ReadFromBuffer(buffer[..], off, count, room);
    }

    method BufWrite(off: nat, src: seq<byte>, readable: bool) returns (t: Transfer)
      requires Good(buffer[..]) && off + |src| < WORD
      modifies buffer
      ensures Good(buffer[..])
      ensures (buffer[..], t) == WriteCall(old(buffer[..]), off, src, readable)
      ensures WriteMeans(old(buffer[..]), off, src, readable, buffer[..], t)
    {
      WriteCallMeans(buffer[..], off, src, readable);
      if off > LAST {
        return Transfer(0, [], off);
      }
      ClampCountIsLeast(off, |src|);
      var count := |src|;
      if (off + count) % WORD > LAST {
        count := LAST - off;
      }
      if count > CHUNK {
        count := CHUNK;
      }
      if !readable {
        return Transfer(-EFAULT, [], off);
      }
      var copied := src[..count];
      ghost var was := buffer[..];
      var i := 0;
      while i < count
        invariant 0 <= i <= count
        invariant forall k | 0 <= k < SIZE :: buffer[k] == if off <= k < off + i then copied[k - off] else was[k]
      {
        buffer[i + off] := copied[i];
        i := i + 1;
      }
      assert buffer[..] == Splice(was, off, copied);
      t := Transfer(count, [], off + count);
    }
  }

  // --- writing in chunks ------------------------------------------------------------------------

  datatype Outcome = Outcome(b: seq<byte>, off: nat, calls: nat)

  /** A program that calls write on what is left of `data` until write returns 0; `calls` counts the
      calls that stored something. */
  function WriteAll(b: seq<byte>, off: nat, data: seq<byte>): (r: Outcome)
    requires Good(b) && off + |data| < WORD
    ensures Good(r.b)
    decreases |data|
  {
    var (b1, t) := WriteCall(b, off, data, true);
    if t.code == 0 then Outcome(b, off, 0)
    else
      var r := WriteAll(b1, t.off, data[t.code..]);
      r.(calls := r.calls + 1)
  }

  /** What reaches the buffer in the end: everything that fits before the last byte. */
  function Fitting(off: nat, data: seq<byte>): seq<byte> {
    if off > LAST then [] else data[..Min(|data|, LAST - off)]
  }

  /** What one call takes and what fits of the rest are what fits. */
  lemma FittingSplits(off: nat, data: seq<byte>, n: nat)
    requires off <= LAST && n == Min(CHUNK, Min(|data|, LAST - off))
    ensures Fitting(off, data) == data[..n] + Fitting(off + n, data[n..])
  {
    var m := Min(|data|, LAST - off);
    assert data[..m] == data[..n] + data[n..m];
    assert data[n..][..m - n] == data[n..m];
  }

  lemma CallsAddUp(n: nat, rest: nat)
    requires 0 < n <= CHUNK && (rest > 0 ==> n == CHUNK)
    ensures (n + rest + CHUNK - 1) / CHUNK == 1 + (rest + CHUNK - 1) / CHUNK
  {
  }

  /** The chunked write is one splice of the part that fits, in as few calls as five bytes a call allow. */
  lemma {:induction false} ChunkedWriteIsOneSplice(b: seq<byte>, off: nat, data: seq<byte>)
    requires Good(b) && off + |data| < WORD
    ensures off <= LAST ==> WriteAll(b, off, data).b == Splice(b, off, Fitting(off, data))
    ensures off > LAST ==> WriteAll(b, off, data).b == b
    ensures WriteAll(b, off, data).off == off + |Fitting(off, data)|
    ensures WriteAll(b, off, data).calls == (|Fitting(off, data)| + CHUNK - 1) / CHUNK
    decreases |data|
  {
    var (b1, t) := WriteCall(b, off, data, true);
    var fit := Fitting(off, data);
    if t.code > 0 {
      var n := t.code;
      var rest := Fitting(t.off, data[n..]);
      FittingSplits(off, data, n);
      ChunkedWriteIsOneSplice(b1, t.off, data[n..]);
      SpliceJoins(b, off, data[..n], rest);
      CallsAddUp(n, |rest|);
    } else if off <= LAST {
      assert fit == [];
      assert Splice(b, off, fit) == b;
    }
  }

  // --- reading in chunks ------------------------------------------------------------------------

  function Sum(counts: seq<nat>): nat {
    if counts == [] then 0 else counts[0] + Sum(counts[1..])
  }

  /** The bytes a program collects that reads with one count after another from offset `off`. */
  function ReadAll(b: seq<byte>, off: nat, counts: seq<nat>): Transfer
    decreases |counts|
  {
    if counts == [] then Transfer(0, [], off)
    else
      var t := ReadCall(b, off, counts[0], counts[0]);
      var rest := ReadAll(b, t.off, counts[1..]);
      Transfer(t.code + rest.code, t.bytes + rest.bytes, rest.off)
  }

  /** Whatever the counts, the chunks join up to one contiguous part of the buffer. */
  lemma {:induction false} ChunkedReadIsOneSlice(b: seq<byte>, off: nat, counts: seq<nat>)
    requires off <= |b|
    ensures var upTo := Min(|b|, off + Sum(counts));
            ReadAll(b, off, counts) == Transfer(upTo - off, b[off..upTo], upTo)
    decreases |counts|
  {
    if counts != [] {
      var t := ReadCall(b, off, counts[0], counts[0]);
      ChunkedReadIsOneSlice(b, t.off, counts[1..]);
      var upTo := Min(|b|, off + Sum(counts));
      assert b[off..upTo] == b[off..t.off] + b[t.off..upTo];
    }
  }

  /** The buffer that holds data of at most 127 bytes from its start on. */
  lemma DataAtStart(b: seq<byte>, data: seq<byte>)
    requires Good(b) && |data| <= LAST
    ensures Fitting(0, data) == data && |Splice(b, 0, data)| == SIZE && Splice(b, 0, data)[0..|data|] == data
  {
    assert data[..|data|] == data;
    assert Splice(b, 0, data)[0..|data|] == data;
  }

  /** Data of at most 127 bytes that are written in chunks are read back exactly, in any chunks. */
  lemma RoundTrip(b: seq<byte>, data: seq<byte>, counts: seq<nat>)
    requires Good(b) && |data| <= LAST && Sum(counts) == |data|
    ensures ReadAll(WriteAll(b, 0, data).b, 0, counts) == Transfer(|data|, data, |data|)
  {
    DataAtStart(b, data);
    ReadBack(Splice(b, 0, data), data, counts);
    ChunkedWriteIsOneSplice(b, 0, data);
  }

  lemma ReadBack(b: seq<byte>, data: seq<byte>, counts: seq<nat>)
    requires |b| == SIZE && |data| <= LAST && b[0..|data|] == data && Sum(counts) == |data|
    ensures ReadAll(b, 0, counts) == Transfer(|data|, data, |data|)
  {
    ChunkedReadIsOneSlice(b, 0, counts);
  }

  /** Reading until read returns 0 yields the 128 bytes of the buffer, however the counts are chosen; and
      with positive counts a 0 comes exactly when all 128 have been read. */
  lemma ReadToTheEnd(b: seq<byte>, counts: seq<nat>, next: nat)
    requires Good(b) && next > 0
    ensures var sofar := ReadAll(b, 0, counts);
            && (ReadCall(b, sofar.off, next, next).code == 0 <==> Sum(counts) >= SIZE)
            && (ReadCall(b, sofar.off, next, next).code == 0 ==> sofar.bytes == b)
  {
    ChunkedReadIsOneSlice(b, 0, counts);
  }
}
