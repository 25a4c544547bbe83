/**
 * Blocks, padding and the streaming context of a message digest: sections 3.1 to 3.3 of RFC 1321
 * and the context of apps/speedtest/md5.c, over any block function.
 */
module Md5Streaming {
  import opened Wrappers

  const WORD: nat := 4     // bytes of a counter word
  const COUNTER: nat := 8  // bytes of the counter
  const TWO64: nat := 0x1_0000_0000_0000_0000

  type Chunk = s: seq<byte> | |s| == 64 witness seq(64, _ => 0)

  /** Absorbs all complete blocks of `s`. */
  function Fold<R>(absorb: (R, Chunk) -> R, r: R, s: seq<byte>): R
    decreases |s|
  {
    if |s| < 64 then r else Fold(absorb, absorb(r, s[..64]), s[64..])
  }

  /** Folding depends on what the block function does with blocks only. */
  lemma {:induction false} SameFold<R>(f: (R, Chunk) -> R, g: (R, Chunk) -> R, r: R, s: seq<byte>)
    requires forall q, b: Chunk :: f(q, b) == g(q, b)
    ensures Fold(f, r, s) == Fold(g, r, s)
    decreases |s|
  {
    if |s| >= 64 {
      SameFold(f, g, f(r, s[..64]), s[64..]);
    }
  }

  lemma {:induction false} FoldAppend<R>(absorb: (R, Chunk) -> R, r: R, s: seq<byte>, n: nat, b: Chunk)
    requires |s| == 64 * n
    ensures Fold(absorb, r, s + b) == absorb(Fold(absorb, r, s), b)
    decreases n
  {
    if n == 0 {
      assert s + b == b && b[..64] == b && |b[64..]| == 0;
    } else {
      assert (s + b)[..64] == s[..64] && (s + b)[64..] == s[64..] + b;
      FoldAppend(absorb, absorb(r, s[..64]), s[64..], n - 1, b);
    }
  }

  /** `n` bytes of a number, low-order byte first. */
  function Octets(value: nat, n: nat): (s: seq<byte>)
    ensures |s| == n
  {
    if n == 0 then [] else [value % 256] + Octets(value / 256, n - 1)
  }

  /** A single one bit, then zeros until the length is 56 modulo 64. */
  function Padding(len: nat): seq<byte> {
    [0x80] + Zeros((119 - len % 64) % 64)
  }

  function Padded(message: seq<byte>): (s: seq<byte>) {
    message + Padding(|message|) + Octets(8 * |message| % TWO64, COUNTER)
  }

  lemma PaddingLength(len: nat)
    ensures (len + |Padding(len)| + 8) % 64 == 0
    ensures |Padding(len)| == if len % 64 < 56 then 56 - len % 64 else 120 - len % 64
  {
    var q, m := len / 64, len % 64;
    assert len == 64 * q + m;
    assert (119 - m) % 64 == if m < 56 then 55 - m else 119 - m;
    assert len + |Padding(len)| + 8 == 64 * (q + if m < 56 then 1 else 2);
  }

  // ---------------------------------------------------------------- the bit counter

  /** Two 32-bit words count bits modulo 2^64. */
  lemma Carry(low: nat, high: nat, total: nat, len: nat, low': nat, high1: nat, high': nat)
    requires low < TWO32 && high < TWO32 && len < TWO32
    requires low + TWO32 * high == 8 * total % TWO64
    requires low' == (low + 8 * len % TWO32) % TWO32
    requires high1 == if low' < low then (high + 1) % TWO32 else high
    requires high' == (high1 + len / 0x2000_0000) % TWO32
    ensures low' + TWO32 * high' == 8 * (total + len) % TWO64
  {
    var carry := if low' < low then 1 else 0;
    var top := len / 0x2000_0000;
    assert 8 * len == TWO32 * top + 8 * len % TWO32;
    assert low + 8 * len % TWO32 == low' + TWO32 * carry;
    var q := 8 * total / TWO64;
    assert 8 * total == TWO64 * q + low + TWO32 * high;
    var wraps := (high + carry) / TWO32 + (high1 + top) / TWO32;
    assert high + carry + top == high' + TWO32 * wraps;
    assert 8 * (total + len) == TWO64 * (q + wraps) + (low' + TWO32 * high');
    Remainder(8 * (total + len), q + wraps, low' + TWO32 * high');
  }

  lemma Remainder(n: nat, q: nat, r: nat)
    requires n == TWO64 * q + r && r < TWO64
    ensures n % TWO64 == r
  {
  }

  /** The byte position in the current block can be read off the low word. */
  lemma Position(low: nat, high: nat, total: nat)
    requires low < TWO32 && low + TWO32 * high == 8 * total % TWO64
    ensures low / 8 % 64 == total % 64
  {
    var q := 8 * total / TWO64;
    assert 8 * total == TWO64 * q + low + TWO32 * high;
    var k := 0x80_0000 * (high + TWO32 * q);
    var p := total - 64 * k;
    assert low == 8 * p;
    assert total == p + 64 * k;
  }

  // ---------------------------------------------------------------- the context

  /** `n` octets to the left. */
  function Shift(value: nat, n: nat): nat { if n == 0 then value else 256 * Shift(value, n - 1) }

  lemma OctetsStep(low: nat, x: nat, n: nat)
    ensures Octets(low + 256 * x, n + 1) == [low % 256] + Octets(low / 256 + x, n)
  {
    assert (low + 256 * x) % 256 == low % 256 && (low + 256 * x) / 256 == low / 256 + x;
  }

  lemma {:induction false} OctetsSplit(low: nat, high: nat, n: nat, m: nat)
    requires low < Shift(1, n)
    ensures Octets(low + Shift(high, n), n + m) == Octets(low, n) + Octets(high, m)
  {
    if n > 0 {
      OctetsStep(low, Shift(high, n - 1), n - 1 + m);
      OctetsSplit(low / 256, high, n - 1, m);
    }
  }

  lemma ShiftFour(value: nat)
    ensures Shift(value, 4) == TWO32 * value
  {
    assert Shift(value, 1) == 256 * Shift(value, 0);
    assert Shift(value, 2) == 256 * Shift(value, 1);
    assert Shift(value, 3) == 256 * Shift(value, 2);
  }

  /** The two counter words are the 64-bit length of the padding. */
  lemma CounterBytes(low: nat, high: nat)
    requires low < TWO32
    ensures Octets(low + TWO32 * high, COUNTER) == Octets(low, WORD) + Octets(high, WORD)
  {
    ShiftFour(high);
    ShiftFour(1);
    OctetsSplit(low, high, 4, 4);
  }

  /** putu32 */
  method PutU32(data: nat, dest: array<byte>, at: nat)
    requires at + 4 <= dest.Length
    modifies dest
    ensures dest[at..at + 4] == Octets(data, WORD)
    ensures forall i :: 0 <= i < dest.Length && !(at <= i < at + 4) ==> dest[i] == old(dest[i])
  {
    var octets: seq<byte> := [data % 256, data / 256 % 256, data / 256 / 256 % 256, data / 256 / 256 / 256 % 256];
    assert octets == Octets(data, 4) by {
      assert Octets(data / 256 / 256, 2) == [octets[2]] + Octets(data / 256 / 256 / 256, 1);
      assert Octets(data, 4) == [octets[0]] + ([octets[1]] + Octets(data / 256 / 256, 2));
    }
    dest[at], dest[at + 1], dest[at + 2], dest[at + 3] := octets[0], octets[1], octets[2], octets[3];
  }

  /** `memset` to zero */
  method Clear(dest: array<byte>, from: nat, to: nat)
    requires from <= to <= dest.Length
    modifies dest
    ensures forall i :: 0 <= i < dest.Length ==> dest[i] == if from <= i < to then 0 else old(dest[i])
  {
    forall i | from <= i < to {
      dest[i] := 0;
    }
  }

  /** The padded message byte by byte, from the last incomplete block on. */
  lemma PaddedBytes(message: seq<byte>, blocks: nat)
    requires 64 * blocks <= |message| < 64 * blocks + 64
    ensures var p, n, t := Padded(message), 64 * blocks, |message| - 64 * blocks;
            && |p| == (if t < 56 then n + 64 else n + 128)
            && message <= p && p[n + t] == 0x80
            && (forall i :: n + t < i < |p| - 8 ==> p[i] == 0)
            && p[|p| - 8..] == Octets(8 * |message| % TWO64, COUNTER)
  {
    Tail(|message|, blocks);
    PaddingLength(|message|);
  }

  /** What is left after the last complete block. */
  lemma Tail(n: nat, blocks: nat)
    requires 64 * blocks <= n < 64 * blocks + 64
    ensures n % 64 == n - 64 * blocks
  {
  }

  /** Positions in the last chunk and in the whole. */
  lemma Slice(all: seq<byte>, at: nat, data: seq<byte>, i: nat, j: nat)
    requires at <= |all| && all[at..] == data && i <= j <= |data|
    ensures data[i..j] == all[at + i..at + j]
    ensures j == |data| ==> data[i..j] == data[i..] && all[at + i..at + j] == all[at + i..]
  {
  }

  class Context<R> {
    const absorb: (R, Chunk) -> R  // the block function
    const start: R
    var buf: R
    var bits0: nat
    var bits1: nat
    const input: array<byte>
    ghost var message: seq<byte>  // everything consumed so far
    ghost var blocks: nat         // complete blocks absorbed

    /** `buf` has absorbed the first `n` bytes of `s`, which are `blocks` blocks. */
    ghost predicate Upto(s: seq<byte>, n: nat)
      reads this
    {
      input.Length == 64 && n <= |s| && n == 64 * blocks && buf == Fold(absorb, start, s[..n])
    }

    /** `input` starts with what is left of `s`. */
    ghost predicate Absorbed(s: seq<byte>)
      reads this, input
    {
      var n := 64 * blocks;
      Upto(s, n) && |s| < n + 64 && input[..|s| - n] == s[n..]
    }

    ghost predicate Counted(n: nat)
      reads this`bits0, this`bits1
    {
      bits0 < TWO32 && bits1 < TWO32 && bits0 + TWO32 * bits1 == 8 * n % TWO64
    }

    ghost predicate Valid()
      reads this, input
    {
      Absorbed(message) && Counted(|message|)
    }

    constructor (absorb: (R, Chunk) -> R, start: R)
      ensures Valid() && message == [] && fresh(input) && this.absorb == absorb && this.start == start
    {
      this.absorb, this.start, buf := absorb, start, start;
      bits0, bits1 := 0, 0;
      input := new byte[64](_ => 0);
      message, blocks := [], 0;
    }

    method CountBits(len: nat)
      requires Counted(|message|) && len < TWO32
      modifies this`bits0, this`bits1
      ensures Counted(|message| + len)
    {
      ghost var high := bits1;
      var t := bits0;
      bits0 := (t + 8 * len % TWO32) % TWO32;
      if bits0 < t {
        bits1 := (bits1 + 1) % TWO32;
      }
      ghost var high1 := bits1;
      bits1 := (bits1 + len / 0x2000_0000) % TWO32;
      Carry(t, high, |message|, len, bits0, high1, bits1);
    }

    /** The buffer holds the next block of `s`. */
    method Absorb(ghost s: seq<byte>, ghost n: nat)
      requires Upto(s, n) && n + 64 <= |s| && input[..] == s[n..n + 64]
      modifies this`buf, this`blocks
      ensures Upto(s, n + 64)
    {
      FoldAppend(absorb, start, s[..n], blocks, input[..]);
      assert s[..n] + s[n..n + 64] == s[..n + 64];
      buf := absorb(buf, input[..]);
      blocks := blocks + 1;
    }

    /** Number of bytes waiting in the buffer. */
    method Waiting() returns (t: nat)
      requires Valid()
      ensures t == |message| - 64 * blocks
    {
      Position(bits0, bits1, |message|);
      Tail(|message|, blocks);
      t := (bits0 / 8) % 64;
    }

    /** Puts `data`, which follows `before`, behind the bytes that wait. */
    method Store(ghost before: seq<byte>, data: seq<byte>, t: nat)
      requires Absorbed(before) && t == |before| - 64 * blocks && t + |data| <= 64
      modifies input
      ensures Upto(before + data, 64 * blocks)
      ensures input[..t + |data|] == (before + data)[64 * blocks..]
    {
      ghost var n := 64 * blocks;
      Copy(input, t, data);
      assert (before + data)[..n] == before[..n];
      assert (before + data)[n..] == before[n..] + data;
    }

    /** The bytes that wait and `data` make a block of `all`. */
    method Lead(ghost before: seq<byte>, ghost all: seq<byte>, data: seq<byte>, t: nat)
      requires Absorbed(before) && t == |before| - 64 * blocks && t + |data| == 64
      requires before + data <= all
      modifies this`buf, this`blocks, input
      ensures Upto(all, |before| + |data|)
    {
      Store(before, data, t);
      ghost var n := 64 * blocks;
      assert all[..n] == (before + data)[..n];
      assert all[n..n + 64] == (before + data)[n..];
      Absorb(all, n);
    }

    method Next(ghost all: seq<byte>, ghost at: nat, data: seq<byte>, pos: nat)
      requires at + |data| == |all| && data == all[at..] && pos + 64 <= |data| && Upto(all, at + pos)
      modifies this`buf, this`blocks, input
      ensures Upto(all, at + pos + 64)
    {
      Copy(input, 0, data[pos..pos + 64]);
      Slice(all, at, data, pos, pos + 64);
      assert input[..] == input[0..64];
      Absorb(all, at + pos);
    }

    /** Absorbs the complete blocks of `data`, the end of `all`. */
    method Middle(ghost all: seq<byte>, ghost at: nat, data: seq<byte>) returns (pos: nat)
      requires at + |data| == |all| && data == all[at..] && Upto(all, at)
      modifies this`buf, this`blocks, input
      ensures pos <= |data| < pos + 64 && Upto(all, at + pos)
    {
      pos := 0;
      while |data| - pos >= 64
        invariant pos <= |data| && Upto(all, at + pos)
      {
        Next(all, at, data, pos);
        pos := pos + 64;
      }
    }

    /** The buffer keeps what is left of `data`, the end of `all`. */
    method Finish(ghost all: seq<byte>, ghost at: nat, data: seq<byte>)
      requires at + |data| == |all| && data == all[at..] && Upto(all, at)
      modifies this`buf, this`blocks, input
      ensures Absorbed(all)
    {
      var pos := Middle(all, at, data);
      Copy(input, 0, data[pos..]);
      Slice(all, at, data, pos, |data|);
    }

    method Update(data: seq<byte>)
      requires Valid() && |data| < TWO32
      modifies this, input
      ensures Valid() && message == old(message) + data
    {
      ghost var before, all := message, message + data;
      assert all[|before|..] == data;
      var t := Waiting();
      CountBits(|data|);
      message := all;
      if t != 0 {
        var room := 64 - t;
        if |data| < room {
          Store(before, data, t);
          return;
        }
        assert before + data[..room] <= all;
        Lead(before, all, data[..room], t);
        Slice(all, |before|, data, room, |data|);
        Finish(all, |before| + room, data[room..]);
      } else {
        assert all[..64 * blocks] == before[..64 * blocks];
        Finish(all, |before|, data);
      }
    }

    method PutCounter()
      requires input.Length == 64
      modifies input
      ensures forall i :: 0 <= i < 56 ==> input[i] == old(input[i])
      ensures input[56..60] == Octets(bits0, WORD)
      ensures input[60..64] == Octets(bits1, WORD)
    {
      PutU32(bits0, input, 56);
      ghost var low := input[56..60];
      PutU32(bits1, input, 60);
      assert input[56..60] == low;
    }

    /** The counter goes behind 56 bytes, and the last block of `p` is absorbed. */
    method LastBlock(ghost p: seq<byte>, ghost n: nat)
      requires Upto(p, n) && |p| == n + 64 && Shows(p, n, 56)
      requires p[n + 56..] == Octets(bits0, WORD) + Octets(bits1, WORD)
      modifies this`buf, this`blocks, input
      ensures buf == Fold(absorb, start, p)
    {
      PutCounter();
      ghost var low, high := input[56..60], input[60..64];
      assert forall i :: 56 <= i < 60 ==> input[i] == low[i - 56] == p[n + 56..][i - 56];
      assert forall i :: 60 <= i < 64 ==> input[i] == high[i - 60] == p[n + 56..][i - 56];
      assert Shows(p, n, 64);
      assert input[..] == p[n..n + 64];
      Absorb(p, n);
      assert p[..n + 64] == p;
    }

    /** The buffer is what `p` says of the bytes from `n` on. */
    ghost predicate Shows(p: seq<byte>, n: nat, size: nat)
      reads input
    {
      n + size <= |p| && size <= input.Length && forall i :: 0 <= i < size ==> input[i] == p[n + i]
    }

    /** The padding needs a block of its own: the current one is filled up with zeros. */
    method Overflow(ghost p: seq<byte>, ghost n: nat, t: nat)
      requires Upto(p, n) && 56 <= t < 64 && Shows(p, n, t + 1)
      requires |p| == n + 128 && forall i :: n + t < i < n + 120 ==> p[i] == 0
      modifies this`buf, this`blocks, input
      ensures Upto(p, n + 64) && Shows(p, n + 64, 56)
    {
      Clear(input, t + 1, 64);
      assert input[..] == p[n..n + 64];
      Absorb(p, n);
      Clear(input, 0, 56);
    }

    /** The first byte of padding goes behind the bytes that wait. */
    method Mark(ghost p: seq<byte>, t: nat)
      requires Absorbed(message) && t == |message| - 64 * blocks
      requires message <= p && |p| > |message| && p[|message|] == 0x80
      modifies input
      ensures Upto(p, 64 * blocks) && Shows(p, 64 * blocks, t + 1)
    {
      ghost var n := 64 * blocks;
      assert p[..n] == message[..n];
      assert forall i :: 0 <= i < t ==> input[i] == input[..t][i] == p[n + i];
      input[t] := 0x80;
    }

    /** The padding up to the counter. */
    method Pad(ghost p: seq<byte>, t: nat) returns (ghost n: nat)
      requires Absorbed(message) && t == |message| - 64 * blocks && p == Padded(message)
      modifies this`buf, this`blocks, input
      ensures Upto(p, n) && |p| == n + 64 && Shows(p, n, 56)
    {
      n := 64 * blocks;
      PaddedBytes(message, blocks);
      Mark(p, t);
      var count := 63 - t;
      if count < 8 {
        Overflow(p, n, t);
        n := n + 64;
      } else {
        Clear(input, t + 1, t + 1 + (count - 8));
      }
    }

    /** Everything up to the last block. */
    method Conclude()
      requires Valid()
      modifies this`buf, this`blocks, input
      ensures buf == Fold(absorb, start, Padded(message))
    {
      ghost var p := Padded(message);
      PaddedBytes(message, blocks);
      var t := Waiting();
      ghost var n := Pad(p, t);
      CounterBytes(bits0, bits1);
      LastBlock(p, n);
    }

    /** The registers are returned, and the whole context is cleared; `blank` are registers of zeros. */
    method Final(blank: R) returns (r: R)
      requires Valid()
      modifies this, input
      ensures r == Fold(absorb, start, Padded(old(message)))
      ensures buf == blank && bits0 == 0 && bits1 == 0 && forall i :: 0 <= i < input.Length ==> input[i] == 0
    {
      Conclude();
      r := buf;
      buf, bits0, bits1 := blank, 0, 0;
      Clear(input, 0, input.Length);
    }
  }

  // ---------------------------------------------------------------- whole messages

  /** However a message is cut up, the context folds over its padded blocks. */
  method Consume<R>(absorb: (R, Chunk) -> R, start: R, blank: R, chunks: seq<seq<byte>>) returns (r: R)
    requires forall c :: c in chunks ==> |c| < TWO32
    ensures r == Fold(absorb, start, Padded(Join(chunks)))
  {
    var ctx := new Context(absorb, start);
    for i := 0 to |chunks|
      invariant ctx.Valid() && ctx.message == Join(chunks[..i]) && fresh(ctx) && fresh(ctx.input)
      invariant ctx.absorb == absorb && ctx.start == start
    {
      assert chunks[..i + 1] == chunks[..i] + [chunks[i]];
      JoinAppend(chunks[..i], chunks[i]);
      ctx.Update(chunks[i]);
    }
    assert chunks[..|chunks|] == chunks;
    r := ctx.Final(blank);
  }

  const FILE_BUFFER_LEN := 1024

  /** A read yields between 1 and 1024 of the remaining bytes. */
  method Read(left: nat) returns (count: nat)
    requires left > 0
    ensures 1 <= count <= FILE_BUFFER_LEN && count <= left
  {
    assert 1 <= 1 <= FILE_BUFFER_LEN && 1 <= left;
    count :| 1 <= count <= FILE_BUFFER_LEN && count <= left;
  }

  lemma Regroup(a: seq<byte>, rest: seq<byte>, n: nat)
    requires n <= |rest|
    ensures a + rest == (a + rest[..n]) + rest[n..]
  {
  }

  method ReadAll<R>(absorb: (R, Chunk) -> R, start: R, blank: R, file: seq<byte>) returns (r: R)
    ensures r == Fold(absorb, start, Padded(file))
  {
    var ctx := new Context(absorb, start);
    var rest := file;
    while rest != []
      invariant ctx.Valid() && file == ctx.message + rest && fresh(ctx) && fresh(ctx.input)
      invariant ctx.absorb == absorb && ctx.start == start
      decreases |rest|
    {
      var count := Read(|rest|);
      Regroup(ctx.message, rest, count);
      ctx.Update(rest[..count]);
      rest := rest[count..];
    }
    assert ctx.message == file;
    r := ctx.Final(blank);
  }
}
