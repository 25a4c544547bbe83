/** Datatypes and functions on byte strings shared by all modules. */
module Wrappers {

  datatype Option<+T> = None | Some(value: T)

  type byte = b: int | 0 <= b < 256

  type Bytes = seq<byte>

  /** Numbers of type size_t wrap around at this one. */
  const SIZE_T: int := 0x1_0000_0000_0000_0000

  /** Numbers of type uint32_t wrap around at this one. */
  const TWO32: nat := 0x1_0000_0000

  /** The longest bundle, ELA_MAX_BUNDLE_LEN. */
  const MAX_BUNDLE: nat := 511

  function Min(a: nat, b: nat): nat { if a < b then a else b }

  function Zeros(n: nat): Bytes { seq(n, _ => 0) }

  /** The chunks one behind the other. */
  function Join(chunks: seq<Bytes>): Bytes {
    if chunks == [] then [] else chunks[0] + Join(chunks[1..])
  }

  lemma {:induction false} JoinAppend(chunks: seq<Bytes>, c: Bytes)
    ensures Join(chunks + [c]) == Join(chunks) + c
  {
    if chunks == [] {
      assert [] + [c] == [c] && [c][1..] == [];
    } else {
      assert (chunks + [c])[1..] == chunks[1..] + [c];
      JoinAppend(chunks[1..], c);
    }
  }

  predicate Begins<T(==)>(done: seq<T>, all: seq<T>) { |done| <= |all| && all[..|done|] == done }

  /** The first element of what is to come joins what was. */
  lemma MoveOver<T>(all: seq<T>, done: seq<T>, x: T, rest: seq<T>)
    requires Begins(done, all) && all[|done|..] == [x] + rest
    ensures |done| < |all| && Begins(done + [x], all) && all[|done + [x]|..] == rest
  {
    var tail := all[|done|..];
    assert tail[0] == x && tail[1..] == rest;
    assert all[|done| + 1..] == tail[1..];
  }

  /** `memcpy` */
  method Copy(dest: array<byte>, at: nat, data: Bytes)
    requires at + |data| <= dest.Length
    modifies dest
    ensures dest[..] == old(dest[..at]) + data + old(dest[at + |data|..])
  {
    forall i | 0 <= i < |data| {
      dest[at + i] := data[i];
    }
  }
}
