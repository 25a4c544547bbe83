/** The MD5 message digest as sections 3.1 to 3.5 of RFC 1321 define it. */
module Md5Spec {
  import opened Wrappers
  import opened Md5Word
  import opened Md5Schedule
  import opened Md5Streaming

  // ---------------------------------------------------------------- section 3.4

  function F(x: word, y: word, z: word): word { (x & y) | (!x & z) }

  function G(x: word, y: word, z: word): word { (x & z) | (y & !z) }

  function H(x: word, y: word, z: word): word { x ^ y ^ z }

  function I(x: word, y: word, z: word): word { y ^ (x | !z) }

  /** a = b + ((a + f + x + t) <<< s) */
  function Update(f: word, a: word, b: word, x: word, t: nat, s: nat): word {
    b + Rotate(a + f + x + Constant(t), Constant(s))
  }

  function Rfc(): Alu<word> { Alu(F, G, H, I, Update, TableRow) }

  /** A word is given with its low-order byte first. */
  function Word(s: seq<byte>): word
    requires |s| == 4
  {
    (s[0] as word) | ((s[1] as word) << 8) | ((s[2] as word) << 16) | ((s[3] as word) << 24)
  }

  function Words(block: seq<byte>): (x: seq<word>)
    requires |block| == 64
    ensures |x| == 16
  {
    seq(16, k requires 0 <= k < 16 => Word(block[4 * k..4 * k + 4]))
  }

  function Sum(r: Registers<word>, q: Registers<word>): Registers<word> {
    Registers(r.a + q.a, r.b + q.b, r.c + q.c, r.d + q.d)
  }

  function Block(r: Registers<word>, block: Chunk): Registers<word> {
    var x := Words(block);
    Sum(r, Operations(Rfc(), r, x, 4 * |x|))  // four rounds over the sixteen words
  }

  // ---------------------------------------------------------------- sections 3.3 and 3.5

  const INITIAL: Registers<word> := Registers(0x67452301, 0xefcdab89, 0x98badcfe, 0x10325476)

  function Low(w: word): byte { ((w & 0xFF) as bv8) as int }

  function WordBytes(w: word): seq<byte> {
    [Low(w), Low(w >> 8), Low(w >> 16), Low(w >> 24)]
  }

  function Digest(r: Registers<word>): seq<byte> {
    WordBytes(r.a) + WordBytes(r.b) + WordBytes(r.c) + WordBytes(r.d)
  }

  /** The registers as section 3.3 lists them, byte by byte. */
  lemma InitialBytes()
    ensures Digest(INITIAL) == [0x01, 0x23, 0x45, 0x67, 0x89, 0xab, 0xcd, 0xef, 0xfe, 0xdc, 0xba, 0x98, 0x76, 0x54, 0x32, 0x10]
  {
  }

  /** A block is sixteen words one after the other, each with its low-order byte first. */
  lemma WordOrder(block: Chunk, k: nat)
    requires k < 16 && block[4 * k..4 * k + 4] == [0x01, 0x23, 0x45, 0x67]
    ensures Words(block)[k] == 0x67452301
  {
  }

  function Md5(message: seq<byte>): (digest: seq<byte>)
    ensures |digest| == 16
  {
    Digest(Fold(Block, INITIAL, Padded(message)))
  }
}
