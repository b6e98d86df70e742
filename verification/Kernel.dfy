/** The parts of the kernel that the drivers call and that several of the models share: error numbers,
    user-space copies with faults, and counting over a sequence of files or calls. */
module Kernel {
  type byte = b: int | 0 <= b < 256

  datatype Option<+T> = None | Some(value: T)

  const EIO := 5
  const ENOMEM := 12
  const EFAULT := 14
  const EBUSY := 16
  const EINVAL := 22
  const ENOTTY := 25
  const ERESTARTSYS := 512

  /** The numbers that Linux gives these errors. */
  lemma ErrorNumbers()
    ensures (EIO, ENOMEM, EFAULT, EBUSY, EINVAL, ENOTTY, ERESTARTSYS) == (5, 12, 14, 16, 22, 25, 512)
  {
  }

  /** The range of an unsigned 64-bit word. */
  const WORD: int := 0x1_0000_0000_0000_0000

  function Min(a: int, b: int): int {
    if a <= b then a else b
  }

  /** What a read or write call hands back: its return value, the bytes that reached the user's buffer
      and the file offset it leaves behind. */
  datatype Transfer = Transfer(code: int, bytes: seq<byte>, off: nat)

  /** `simple_read_from_buffer`: the user's buffer accepts only the first `room` bytes before it faults. A
      copy that is cut short is a short read; a copy of which nothing arrives is a fault. */
  function ReadFromBuffer(from: seq<byte>, off: nat, count: nat, room: nat): Transfer {
    if off >= |from| || count == 0 then Transfer(0, [], off)
    else
      var got := Min(Min(count, |from| - off), room);
      if got == 0 then Transfer(-EFAULT, [], off)
      else Transfer(got, from[off..off + got], off + got)
  }

  /** What such a read hands back, said of the result. */
  predicate HandsBack(from: seq<byte>, off: nat, count: nat, room: nat, t: Transfer) {
    if off >= |from| || count == 0 then t.code == 0 && t.bytes == [] && t.off == off
    else if room == 0 then t.code == -14 && t.bytes == [] && t.off == off
    else
      && 0 < t.code <= count && t.code <= room && off + t.code <= |from|
      && (t.code == count || t.code == room || off + t.code == |from|)
      && t.bytes == from[off..off + t.code] && t.off == off + t.code
  }

  /** `strcpy`: the string and its final zero to the start of an array that has room for both. */
  function Strcpy(dst: seq<char>, src: seq<char>): (r: seq<char>)
    requires |src| < |dst|
    ensures |r| == |dst| && r[..|src|] == src && r[|src|] == '\0'
    ensures r[|src| + 1..] == dst[|src| + 1..]
  {
    src + ['\0'] + dst[|src| + 1..]
  }

  /** How many elements of `s` satisfy `p`. */
  function Count<T>(s: seq<T>, p: T -> bool): nat {
    if s == [] then 0
    else Count(s[..|s| - 1], p) + (if p(s[|s| - 1]) then 1 else 0)
  }

  lemma {:induction false} CountUpdate<T>(s: seq<T>, i: nat, x: T, p: T -> bool)
    requires i < |s|
    ensures Count(s[i := x], p) == Count(s, p) - (if p(s[i]) then 1 else 0) + (if p(x) then 1 else 0)
    decreases |s|
  {
    var t := s[i := x];
    var last := |s| - 1;
    if i == last {
      assert t[..last] == s[..last];
    } else {
      CountUpdate(s[..last], i, x, p);
      assert t[..last] == s[..last][i := x];
    }
  }

  lemma CountAppend<T>(s: seq<T>, x: T, p: T -> bool)
    ensures Count(s + [x], p) == Count(s, p) + (if p(x) then 1 else 0)
  {
    assert (s + [x])[..|s|] == s;
  }

  /** Two positions that satisfy `p` are two in the count, and one is one. */
  lemma {:induction false} CountPair<T>(s: seq<T>, i: nat, j: nat, p: T -> bool)
    requires i < |s| && j < |s| && p(s[i]) && p(s[j])
    ensures Count(s, p) >= if i == j then 1 else 2
    decreases |s|
  {
    var last := |s| - 1;
    if i < last && j < last {
      CountPair(s[..last], i, j, p);
    } else if i < last {
      CountPair(s[..last], i, i, p);
    } else if j < last {
      CountPair(s[..last], j, j, p);
    }
  }

  /** A positive count has a witness. */
  lemma {:induction false} CountWitness<T>(s: seq<T>, p: T -> bool) returns (i: nat)
    requires Count(s, p) > 0
    ensures i < |s| && p(s[i])
    decreases |s|
  {
    var last := |s| - 1;
    if p(s[last]) {
      i := last;
    } else {
      i := CountWitness(s[..last], p);
    }
  }

  /** Counting by a property that falls into two exclusive ones adds up. */
  lemma {:induction false} CountSplits<T>(s: seq<T>, p: T -> bool, q: T -> bool, r: T -> bool)
    requires forall x | x in s :: (p(x) <==> q(x) || r(x)) && !(q(x) && r(x))
    ensures Count(s, p) == Count(s, q) + Count(s, r)
    decreases |s|
  {
    if s != [] {
      assert s[|s| - 1] in s;
      CountSplits(s[..|s| - 1], p, q, r);
    }
  }

  /** A stronger property counts no more. */
  lemma {:induction false} CountMonotone<T>(s: seq<T>, p: T -> bool, q: T -> bool)
    requires forall x | x in s :: p(x) ==> q(x)
    ensures Count(s, p) <= Count(s, q)
    decreases |s|
  {
    if s != [] {
      assert s[|s| - 1] in s;
      CountMonotone(s[..|s| - 1], p, q);
    }
  }

  /** The count is the whole length exactly when every element satisfies `p`. */
  lemma {:induction false} CountAll<T>(s: seq<T>, p: T -> bool)
    ensures Count(s, p) <= |s|
    ensures Count(s, p) == |s| <==> forall i | 0 <= i < |s| :: p(s[i])
    decreases |s|
  {
    if s != [] {
      CountAll(s[..|s| - 1], p);
      if Count(s, p) == |s| {
        forall i | 0 <= i < |s| ensures p(s[i]) {
          if i < |s| - 1 { assert s[..|s| - 1][i] == s[i]; }
        }
      }
    }
  }

  /** The sum of a weight over a sequence. */
  function Total<T>(s: seq<T>, w: T -> nat): nat {
    if s == [] then 0 else Total(s[..|s| - 1], w) + w(s[|s| - 1])
  }

  lemma {:induction false} TotalUpdate<T>(s: seq<T>, i: nat, x: T, w: T -> nat)
    requires i < |s|
    ensures Total(s[i := x], w) == Total(s, w) - w(s[i]) + w(x)
    decreases |s|
  {
    var last := |s| - 1;
    if i == last {
      assert s[i := x][..last] == s[..last];
    } else {
      TotalUpdate(s[..last], i, x, w);
      assert s[i := x][..last] == s[..last][i := x];
    }
  }

  lemma TotalAppend<T>(s: seq<T>, x: T, w: T -> nat)
    ensures Total(s + [x], w) == Total(s, w) + w(x)
  {
    assert (s + [x])[..|s|] == s;
  }
}
