/** The words of the message digest: section 2 of RFC 1321. */
module Md5Word {
  import opened Wrappers

  type word = bv32

  /** Rotation to the left. */
  function Rotate(w: word, s: word): word {
    var n := s & 31;
    (w << n) | (w >> (32 - n))
  }

  /** What leaves a word on the left comes back on the right, for all distances that occur. */
  lemma RotateIsRotation(w: word)
    ensures Rotate(w, 7) == w.RotateLeft(7) && Rotate(w, 12) == w.RotateLeft(12) && Rotate(w, 17) == w.RotateLeft(17) && Rotate(w, 22) == w.RotateLeft(22)
    ensures Rotate(w, 5) == w.RotateLeft(5) && Rotate(w, 9) == w.RotateLeft(9) && Rotate(w, 14) == w.RotateLeft(14) && Rotate(w, 20) == w.RotateLeft(20)
    ensures Rotate(w, 4) == w.RotateLeft(4) && Rotate(w, 11) == w.RotateLeft(11) && Rotate(w, 16) == w.RotateLeft(16) && Rotate(w, 23) == w.RotateLeft(23)
    ensures Rotate(w, 6) == w.RotateLeft(6) && Rotate(w, 10) == w.RotateLeft(10) && Rotate(w, 15) == w.RotateLeft(15) && Rotate(w, 21) == w.RotateLeft(21)
  {
  }

  function Constant(n: nat): word { (n % TWO32) as word }

  /** A constant is the word with that value: here the first additive constant, and a rotation. */
  lemma FirstConstant()
    ensures Constant(0xd76aa478) == 0xd76aa478
  {
    assert 0xd76aa478 % TWO32 == 0xd76aa478;
  }

  lemma FirstRotation()
    ensures Constant(7) == 7
  {
  }
}
