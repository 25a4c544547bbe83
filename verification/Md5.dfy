/** The message digest of apps/speedtest/md5.c computes the digest of RFC 1321. */
module Md5Digest {
  import opened Wrappers
  import opened Md5Schedule
  import opened Md5Streaming
  import opened Md5Word
  import opened Md5Spec

  // ---------------------------------------------------------------- the block function

  function F1(x: word, y: word, z: word): word { z ^ (x & (y ^ z)) }

  function F2(x: word, y: word, z: word): word { F1(z, x, y) }

  function F3(x: word, y: word, z: word): word { x ^ y ^ z }

  function F4(x: word, y: word, z: word): word { y ^ (x | !z) }

  /** The value MD5STEP leaves in `w`. */
  function Step(f: word, w: word, x: word, data: word, t: nat, s: nat): word {
    Rotate(w + (f + (data + Constant(t))), Constant(s)) + x
  }

  function Source(): Alu<word> { Alu(F1, F2, F3, F4, Step, TableRow) }

  lemma ReducedF1(x: word, y: word, z: word)
    ensures F1(x, y, z) == F(x, y, z)
  {
    assert z ^ (x & (y ^ z)) == (x & y) | (!x & z);
  }

  lemma ReducedF2(x: word, y: word, z: word)
    ensures F2(x, y, z) == G(x, y, z)
  {
    assert y ^ (z & (x ^ y)) == (x & z) | (y & !z);
  }

  lemma StepIsUpdate(f: word, w: word, x: word, data: word, t: nat, s: nat)
    ensures Step(f, w, x, data, t, s) == Update(f, w, x, data, t, s)
  {
    var k := Constant(t);
    assert w + (f + (data + k)) == w + f + data + k;
  }

  /** The reduced functions and reordered sums compute the operations of section 3.4. */
  lemma SourceIsRfc()
    ensures SameAlu(Source(), Rfc())
  {
    forall x, y, z ensures F1(x, y, z) == F(x, y, z) && F2(x, y, z) == G(x, y, z) {
      ReducedF1(x, y, z);
      ReducedF2(x, y, z);
    }
    forall f, w, x, data, t, s ensures Step(f, w, x, data, t, s) == Update(f, w, x, data, t, s) {
      StepIsUpdate(f, w, x, data, t, s);
    }
  }

  /** The last four lines of MD5Transform. */
  function Accumulated(buf: Registers<word>, q: Registers<word>): Registers<word> {
    Registers(buf.a + q.a, buf.b + q.b, buf.c + q.c, buf.d + q.d)
  }

  lemma AccumulatedIsSum(r: Registers<word>, q: Registers<word>)
    ensures Accumulated(r, q) == Sum(r, q)
  {
  }

  /** What MD5Transform makes of the registers for one block. */
  function SourceBlock(r: Registers<word>, block: Chunk): Registers<word> {
    var x := Words(block);
    Accumulated(r, Operations(Source(), r, x, 4 * |x|))
  }

  lemma SourceBlockIsBlock(r: Registers<word>, block: Chunk)
    ensures SourceBlock(r, block) == Block(r, block)
  {
    AccumulatedIsSum(r, Operations(Source(), r, Words(block), 64));
    SourceIsRfc();
    SameOperations(Source(), Rfc(), r, Words(block), 64);
  }

  method Transform(buf: Registers<word>, block: Chunk) returns (r: Registers<word>)
    ensures r == SourceBlock(buf, block) == Block(buf, block)
  {
    var x := Words(block);
    var q := Unrolled(Source(), buf, x);
    r := Accumulated(buf, q);
    SourceBlockIsBlock(buf, block);
  }

  // ---------------------------------------------------------------- whole messages

  const BLANK: Registers<word> := Registers(0, 0, 0, 0)

  /** Absorbing the blocks of a message with MD5Transform gives the registers of section 3.4. */
  lemma SourceFold(s: seq<byte>)
    ensures Fold(SourceBlock, INITIAL, s) == Fold(Block, INITIAL, s)
  {
    forall r, b: Chunk ensures SourceBlock(r, b) == Block(r, b) {
      SourceBlockIsBlock(r, b);
    }
    SameFold(SourceBlock, Block, INITIAL, s);
  }

  /** MD5Init, one MD5Update for each chunk, MD5Final. */
  method Stream(chunks: seq<seq<byte>>) returns (digest: seq<byte>)
    requires forall c :: c in chunks ==> |c| < TWO32
    ensures digest == Md5(Join(chunks))
  {
    var r := Consume(SourceBlock, INITIAL, BLANK, chunks);
    SourceFold(Padded(Join(chunks)));
    digest := Digest(r);
  }

  function HexDigit(n: nat): char
    requires n < 16
  {
    "0123456789ABCDEF"[n]
  }

  function Hex(s: seq<byte>): string {
    if s == [] then "" else Hex(s[..|s| - 1]) + [HexDigit(s[|s| - 1] / 16), HexDigit(s[|s| - 1] % 16)]
  }

  /** The value of a hexadecimal digit in upper case, by its character code; -1 for any other character. */
  function DigitValue(c: char): int {
    if '0' <= c <= '9' then c as int - 48
    else if 'A' <= c <= 'F' then c as int - 65 + 10
    else -1
  }

  lemma DigitIs(n: nat)
    requires n < 16
    ensures DigitValue(HexDigit(n)) == n
  {
  }

  lemma {:induction false} HexLength(s: seq<byte>)
    ensures |Hex(s)| == 2 * |s|
  {
    if s != [] {
      HexLength(s[..|s| - 1]);
    }
  }

  /** The digits at `i` and `i + 1` are those of `b`, the high one first. */
  predicate SpelledAt(hex: string, i: nat, b: byte) {
    i + 1 < |hex| && 0 <= DigitValue(hex[i]) && 0 <= DigitValue(hex[i + 1]) && 16 * DigitValue(hex[i]) + DigitValue(hex[i + 1]) == b
  }

  lemma LastSpelled(front: string, b: byte)
    ensures SpelledAt(front + [HexDigit(b / 16), HexDigit(b % 16)], |front|, b)
  {
    DigitIs(b / 16);
    DigitIs(b % 16);
  }

  lemma StillSpelled(front: string, back: string, i: nat, b: byte)
    requires SpelledAt(front, i, b)
    ensures SpelledAt(front + back, i, b)
  {
  }

  /** Two digits for each byte. */
  lemma {:induction false} HexMeans(s: seq<byte>, i: nat)
    requires i < |s|
    ensures |Hex(s)| == 2 * |s| && SpelledAt(Hex(s), 2 * i, s[i])
  {
    var n := |s| - 1;
    var front := Hex(s[..n]);
    HexLength(s[..n]);
    if i < n {
      HexMeans(s[..n], i);
      StillSpelled(front, [HexDigit(s[n] / 16), HexDigit(s[n] % 16)], 2 * i, s[i]);
    } else {
      LastSpelled(front, s[n]);
    }
  }

  method ToHex(bytes: seq<byte>) returns (hex: string)
    ensures hex == Hex(bytes)
  {
    hex := "";
    for i := 0 to |bytes|
      invariant hex == Hex(bytes[..i])
    {
      assert bytes[..i + 1][..i] == bytes[..i];
      hex := hex + [HexDigit(bytes[i] / 16), HexDigit(bytes[i] % 16)];
    }
    assert bytes[..|bytes|] == bytes;
  }

  /** `room` is the size of the result buffer. */
  method FileMd5(file: Option<seq<byte>>, room: nat) returns (r: Option<string>)
    ensures r == if file == None || room < 33 then None else Some(Hex(Md5(file.value)))
    ensures r.Some? ==> |r.value| == 32 && forall i :: 0 <= i < 16 ==> SpelledAt(r.value, 2 * i, Md5(file.value)[i])
  {
    if file == None || room < 33 {
      return None;
    }
    var q := ReadAll(SourceBlock, INITIAL, BLANK, file.value);
    SourceFold(Padded(file.value));
    var hex := ToHex(Digest(q));
    r := Some(hex);
    forall i | 0 <= i < 16 ensures |hex| == 32 && SpelledAt(hex, 2 * i, Md5(file.value)[i]) {
      HexMeans(Md5(file.value), i);
    }
    HexLength(Md5(file.value));
  }
}
