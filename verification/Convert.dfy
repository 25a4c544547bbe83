/**
 * Converting the label area of the old data format within one buffer
 * (src/carrier/ela_carrier.c:470-475, 509-547): ids change their byte order, friends without a
 * label are dropped, and the remaining entries move to the front.
 */
module Convert {
  import opened Wrappers
  import opened Image
  import opened Labels
  import opened LabelArea

  /** The id as a little-endian host stored it. */
  function HostOrder(n: nat): (s: Bytes)
    requires n < TWO32
    ensures |s| == 4
  {
    var u := U32(n);
    [u[3], u[2], u[1], u[0]]
  }

  /** The low-order byte comes first there, and last in the data file. */
  lemma ByteOrders(n: nat)
    requires n < TWO32
    ensures var h: seq<int>, u: seq<int> := HostOrder(n), U32(n);
            && h[0] + 0x100 * h[1] + 0x1_0000 * h[2] + 0x100_0000 * h[3] == n
            && u[3] + 0x100 * u[2] + 0x1_0000 * u[1] + 0x100_0000 * u[0] == n
  {
    NumberOfU32(n);
  }

  function OldEntry(f: Friend): (s: Bytes)
    requires WellFormed(f)
    ensures |s| == 4 + |f.text| + 1
  {
    HostOrder(f.number) + f.text + [0]
  }

  function OldArea(fs: seq<Friend>): Bytes
    requires AllWellFormed(fs)
  {
    if fs == [] then [] else OldEntry(fs[0]) + OldArea(fs[1..])
  }

  lemma {:induction false} NewIsShorter(fs: seq<Friend>)
    requires AllWellFormed(fs)
    ensures |Serialize(fs)| <= |OldArea(fs)|
  {
    if fs != [] {
      NewIsShorter(fs[1..]);
    }
  }

  lemma Adjacent(s: Bytes, i: nat, j: nat, k: nat)
    requires i <= j <= k <= |s|
    ensures s[i..k] == s[i..j] + s[j..k]
  {
  }

  ghost predicate SameOutside(now: Bytes, before: Bytes, w: nat, n: nat) {
    |now| == |before| && forall i :: 0 <= i < |now| && !(w <= i < w + n) ==> now[i] == before[i]
  }

  /** htonl, then memcpy */
  method MoveId(buf: array<byte>, w: nat, r: nat, ghost number: nat)
    requires number < TWO32 && w <= r && r + 4 <= buf.Length && buf[r..r + 4] == HostOrder(number)
    modifies buf
    ensures buf[w..w + 4] == U32(number) && SameOutside(buf[..], old(buf[..]), w, 4)
  {
    ghost var id, u := buf[r..r + 4], U32(number);
    assert id[0] == u[3] && id[1] == u[2] && id[2] == u[1] && id[3] == u[0];
    var i0, i1, i2, i3 := buf[r], buf[r + 1], buf[r + 2], buf[r + 3];
    buf[w], buf[w + 1], buf[w + 2], buf[w + 3] := i3, i2, i1, i0;
    assert buf[w..w + 4] == [i3, i2, i1, i0] == u;
  }

  /** memmove */
  method MoveText(buf: array<byte>, w: nat, r: nat, n: nat)
    requires w <= r && r + n <= buf.Length
    modifies buf
    ensures buf[w..w + n] == old(buf[r..r + n]) && SameOutside(buf[..], old(buf[..]), w, n)
  {
    forall k | 0 <= k < n {
      buf[w + k] := buf[r + k];
    }
  }

  /** One entry moves from `r` to `w`, which may overlap. */
  method MoveEntry(buf: array<byte>, w: nat, r: nat, n: nat, ghost f: Friend)
    requires WellFormed(f) && n == |f.text| && w <= r && r + 4 + n + 1 <= buf.Length
    requires buf[r..r + 4] == HostOrder(f.number) && buf[r + 4..r + 4 + n + 1] == f.text + [0]
    modifies buf
    ensures buf[w..w + 4 + n + 1] == Entry(f) && SameOutside(buf[..], old(buf[..]), w, 4 + n + 1)
  {
    ghost var text := buf[r + 4..r + 4 + n + 1];
    MoveId(buf, w, r, f.number);
    ghost var id := buf[w..w + 4];
    assert buf[r + 4..r + 4 + n + 1] == text;
    MoveText(buf, w + 4, r + 4, n + 1);
    assert buf[w..w + 4] == id && buf[w + 4..w + 4 + n + 1] == text;
    assert buf[w..w + 4 + n + 1] == buf[w..w + 4] + buf[w + 4..w + 4 + n + 1];
    assert Entry(f) == U32(f.number) + (f.text + [0]);
  }

  // ---------------------------------------------------------------- the loop

  lemma {:induction false} SerializeAppend(fs: seq<Friend>, f: Friend)
    requires AllWellFormed(fs) && WellFormed(f)
    ensures AllWellFormed(fs + [f])
    ensures Serialize(fs + [f]) == Serialize(fs) + if f.text == [] then [] else Entry(f)
  {
    if fs != [] {
      assert (fs + [f])[1..] == fs[1..] + [f];
      SerializeAppend(fs[1..], f);
    } else {
      assert (fs + [f])[1..] == [];
    }
  }

  /** What the loop writes for a friend. */
  function NewEntry(f: Friend): (s: Bytes)
    requires WellFormed(f)
    ensures |s| <= |OldEntry(f)|
  {
    if f.text == [] then [] else Entry(f)
  }

  /**
   * Where the loop stands: `done` is converted and ends at `w`, `todo` starts at `r`, and nothing
   * outside the area has been touched.
   */
  ghost predicate Halfway(now: Bytes, before: Bytes, at: nat, end: nat, w: nat, r: nat, done: Bytes, todo: Bytes) {
    && |now| == |before| && at <= w <= r <= end <= |now|
    && now[at..w] == done
    && now[r..end] == todo
    && now[..at] == before[..at] && now[end..] == before[end..]
  }

  /** The entry at `r` as the loop reads it. */
  lemma NextEntry(now: Bytes, r: nat, end: nat, f: Friend, rest: Bytes)
    requires WellFormed(f) && r <= end <= |now| && now[r..end] == OldEntry(f) + rest
    ensures r + 4 + |f.text| + 1 <= end
    ensures now[r..r + 4] == HostOrder(f.number)
    ensures now[r + 4..r + 4 + |f.text| + 1] == f.text + [0]
    ensures now[r + 4 + |f.text| + 1..end] == rest
  {
    assert OldEntry(f) == HostOrder(f.number) + (f.text + [0]);
    Pieces(now, r, end, HostOrder(f.number), f.text + [0], rest);
  }

  lemma Untouched(now: Bytes, before: Bytes, w: nat, n: nat, i: nat, j: nat)
    requires SameOutside(now, before, w, n) && i <= j <= |now| && (j <= w || w + n <= i)
    ensures now[i..j] == before[i..j]
  {
  }

  lemma Moved(now: Bytes, now': Bytes, before: Bytes, at: nat, end: nat, w: nat, r: nat, done: Bytes, todo: Bytes,
              e: Bytes, rest: Bytes)
    requires Halfway(now, before, at, end, w, r, done, todo)
    requires r + |e| <= end && SameOutside(now', now, w, |e|) && now'[w..w + |e|] == e && now[r + |e|..end] == rest
    ensures Halfway(now', before, at, end, w + |e|, r + |e|, done + e, rest)
  {
    var n := |e|;
    Untouched(now', now, w, n, at, w);
    Untouched(now', now, w, n, r + n, end);
    Untouched(now', now, w, n, 0, at);
    Untouched(now', now, w, n, end, |now|);
    Adjacent(now', at, w, w + n);
  }

  /** An entry with a label of `n` bytes is moved. */
  method Advance(buf: array<byte>, w: nat, r: nat, n: nat, ghost before: Bytes, ghost at: nat, ghost end: nat,
                 ghost done: Bytes, ghost f: Friend, ghost rest: Bytes)
    requires WellFormed(f) && n == |f.text| > 0 && Halfway(buf[..], before, at, end, w, r, done, OldEntry(f) + rest)
    modifies buf
    ensures Halfway(buf[..], before, at, end, w + 4 + n + 1, r + 4 + n + 1, done + Entry(f), rest)
  {
    ghost var now := buf[..];
    NextEntry(now, r, end, f, rest);
    assert buf[r..r + 4] == now[r..r + 4] && buf[r + 4..r + 4 + n + 1] == now[r + 4..r + 4 + n + 1];
    MoveEntry(buf, w, r, n, f);
    assert buf[..][w..w + 4 + n + 1] == buf[w..w + 4 + n + 1];
    Moved(now, buf[..], before, at, end, w, r, done, OldEntry(f) + rest, Entry(f), rest);
  }

  /** The length of the label in the entry at `r`. */
  method LabelLength(buf: array<byte>, r: nat, ghost end: nat, ghost f: Friend, ghost rest: Bytes) returns (n: nat)
    requires WellFormed(f) && r <= end <= buf.Length && buf[..][r..end] == OldEntry(f) + rest
    ensures n == |f.text|
  {
    ghost var now := buf[..];
    NextEntry(now, r, end, f, rest);
    TextAt(now, r + 4, f.text);
    n := StrLen(buf[..], r + 4);
  }

  /** One round of the loop: `w` and `r` are the write and read positions. */
  method ConvertOne(buf: array<byte>, w: nat, r: nat, ghost before: Bytes, ghost at: nat, ghost end: nat,
                    ghost done: Bytes, ghost f: Friend, ghost rest: Bytes) returns (w': nat, r': nat)
    requires WellFormed(f) && Halfway(buf[..], before, at, end, w, r, done, OldEntry(f) + rest)
    modifies buf
    ensures Halfway(buf[..], before, at, end, w', r', done + NewEntry(f), rest)
  {
    var n := LabelLength(buf, r, end, f, rest);
    if n == 0 {
      NextEntry(buf[..], r, end, f, rest);
      assert done + [] == done;
      return w, r + 4 + 1;
    }
    Advance(buf, w, r, n, before, at, end, done, f, rest);
    return w + 4 + n + 1, r + 4 + n + 1;
  }

  lemma FourParts(s: Bytes, i: nat, j: nat, k: nat)
    requires i <= j <= k <= |s|
    ensures s == s[..i] + s[i..j] + s[j..k] + s[k..]
  {
  }

  /** Everything is converted: the space that was gained is cleared. */
  method ClearRest(buf: array<byte>, w: nat, r: nat, ghost before: Bytes, ghost at: nat, ghost end: nat, ghost done: Bytes)
    requires Halfway(buf[..], before, at, end, w, r, done, [])
    modifies buf
    ensures w - at == |done| <= end - at
    ensures buf[..] == before[..at] + done + Zeros(end - w) + before[end..]
  {
    assert |buf[..][r..end]| == 0;
    forall k | w <= k < r {
      buf[k] := 0;
    }
    ghost var now := buf[..];
    assert now[at..w] == done && now[w..end] == Zeros(end - w);
    FourParts(now, at, w, end);
  }

  /** What the next round of the loop reads and writes. */
  lemma NextRound(fs: seq<Friend>, i: nat)
    requires AllWellFormed(fs) && i < |fs|
    ensures AllWellFormed(fs[i..]) && AllWellFormed(fs[i + 1..]) && AllWellFormed(fs[..i]) && AllWellFormed(fs[..i + 1])
    ensures OldArea(fs[i..]) == OldEntry(fs[i]) + OldArea(fs[i + 1..])
    ensures Serialize(fs[..i + 1]) == Serialize(fs[..i]) + NewEntry(fs[i])
  {
    assert fs[i..][1..] == fs[i + 1..];
    assert fs[..i + 1] == fs[..i] + [fs[i]];
    SerializeAppend(fs[..i], fs[i]);
  }

  /**
   * `count` old entries at `at` become the serialized entries of the labelled friends among them,
   * followed by zeros; the rest of the buffer stays as it is.
   */
  method ConvertEntries(buf: array<byte>, at: nat, count: nat, ghost fs: seq<Friend>) returns (len: nat)
    requires AllWellFormed(fs) && count == |fs| && at + |OldArea(fs)| <= buf.Length
    requires buf[at..at + |OldArea(fs)|] == OldArea(fs)
    modifies buf
    ensures len == |Serialize(fs)| <= |OldArea(fs)|
    ensures buf[..] == old(buf[..at]) + Serialize(fs) + Zeros(|OldArea(fs)| - len) + old(buf[at + |OldArea(fs)|..])
  {
    ghost var before, end := buf[..], at + |OldArea(fs)|;
    var w: nat, r: nat := at, at;
    assert fs[0..] == fs;
    for i := 0 to count
      invariant Halfway(buf[..], before, at, end, w, r, Serialize(fs[..i]), OldArea(fs[i..]))
    {
      NextRound(fs, i);
      w, r := ConvertOne(buf, w, r, before, at, end, Serialize(fs[..i]), fs[i], OldArea(fs[i + 1..]));
    }
    assert fs[..count] == fs && fs[count..] == [];
    len := w - at;
    ClearRest(buf, w, r, before, at, end, Serialize(fs));
  }

  /** What the old format kept is what reading the converted area restores. */
  method ConvertThenRead(buf: array<byte>, at: nat, fs: seq<Friend>, friends: Table) returns (table: Table)
    requires AllWellFormed(fs) && at + |OldArea(fs)| <= buf.Length && buf[at..at + |OldArea(fs)|] == OldArea(fs)
    requires Padded(buf[at..], |OldArea(fs)|) && |OldArea(fs)| < SIZE_T
    modifies buf
    ensures table == Restore(friends, fs)
  {
    ghost var zeros := buf[at..];
    var len := ConvertEntries(buf, at, |fs|, fs);
    assert buf[at..][..len] == Serialize(fs);
    assert Padded(buf[at..], len) by {
      var end := |OldArea(fs)|;
      assert forall i :: len <= i < end ==> buf[at..][i] == Zeros(end - len)[i - len];
      assert forall i :: end <= i < |zeros| ==> buf[at..][i] == zeros[i];
    }
    var consumed;
    table, consumed := ApplyExtra(friends, buf[at..], len);
    WalkRestores(friends, buf[at..], len, fs);
  }

  // ---------------------------------------------------------------- any old area

  /** `count` entries begin at `pos`, and each string ends within the buffer. */
  predicate OldEntries(s: Bytes, pos: nat, count: nat)
    decreases count
  {
    count == 0 || (pos + 4 <= |s| && Terminated(s, pos + 4) && OldEntries(s, pos + 4 + StringLen(s, pos + 4) + 1, count - 1))
  }

  lemma HostNumber(s: Bytes) returns (n: nat)
    requires |s| == 4
    ensures n < TWO32 && HostOrder(n) == s
  {
    var a: int, b: int, c: int, d: int := s[3], s[2], s[1], s[0];
    n := a * 0x100_0000 + b * 0x1_0000 + c * 256 + d;
    Digits(a, b, c, d);
  }

  lemma EntryOf(s: Bytes, pos: nat) returns (f: Friend)
    requires pos + 4 <= |s| && Terminated(s, pos + 4)
    ensures WellFormed(f) && |f.text| == StringLen(s, pos + 4) && OldEntry(f) == s[pos..pos + 4 + |f.text| + 1]
  {
    var n := StringLen(s, pos + 4);
    var number := HostNumber(s[pos..pos + 4]);
    f := Friend(number, s[pos + 4..pos + 4 + n]);
    var id, text := HostOrder(number), f.text;
    assert s[pos..pos + 4 + n + 1] == id + text + [0];
  }

  lemma OneMoreInFront(s: Bytes, pos: nat, f: Friend, rest: seq<Friend>)
    requires WellFormed(f) && AllWellFormed(rest)
    requires var next := pos + |OldEntry(f)|;
             next + |OldArea(rest)| <= |s| && s[pos..next] == OldEntry(f) && s[next..next + |OldArea(rest)|] == OldArea(rest)
    ensures var fs := [f] + rest;
            && AllWellFormed(fs)
            && pos + |OldArea(fs)| <= |s| && s[pos..pos + |OldArea(fs)|] == OldArea(fs)
  {
    var fs, next := [f] + rest, pos + |OldEntry(f)|;
    assert fs[1..] == rest;
    Adjacent(s, pos, next, next + |OldArea(rest)|);
  }

  /** Such a buffer holds the old entries of some friends, with and without labels. */
  lemma {:induction false} OldEntriesAreFriends(s: Bytes, pos: nat, count: nat) returns (fs: seq<Friend>)
    requires OldEntries(s, pos, count) && pos <= |s|
    ensures AllWellFormed(fs) && |fs| == count
    ensures pos + |OldArea(fs)| <= |s| && s[pos..pos + |OldArea(fs)|] == OldArea(fs)
    decreases count
  {
    if count == 0 {
      fs := [];
    } else {
      var f := EntryOf(s, pos);
      var next := pos + 4 + |f.text| + 1;
      var rest := OldEntriesAreFriends(s, next, count - 1);
      fs := [f] + rest;
      OneMoreInFront(s, pos, f, rest);
    }
  }

  /** The data end at `len`; the rest of the buffer is zero, as `calloc` left it. */
  predicate ZeroFrom(s: Bytes, len: nat) {
    forall i :: len <= i < |s| ==> s[i] == 0
  }

  /** An entry that has a label ends at most one byte behind the data. */
  lemma LabelledEntryEnds(s: Bytes, len: nat, pos: nat, f: Friend)
    requires WellFormed(f) && f.text != [] && ZeroFrom(s, len)
    requires pos + |OldEntry(f)| <= |s| && s[pos..pos + |OldEntry(f)|] == OldEntry(f)
    ensures pos + |OldEntry(f)| <= len + 1
  {
    var last := |OldEntry(f)| - 2;
    assert OldEntry(f)[last] == f.text[|f.text| - 1];
    assert s[pos + last] == s[pos..pos + |OldEntry(f)|][last];
  }

  /** So do all entries with labels together; behind that there are none. */
  lemma {:induction false} LabelledEntriesEnd(s: Bytes, len: nat, pos: nat, fs: seq<Friend>)
    requires AllWellFormed(fs) && ZeroFrom(s, len)
    requires pos + |OldArea(fs)| <= |s| && s[pos..pos + |OldArea(fs)|] == OldArea(fs)
    ensures if pos <= len then pos + |Serialize(fs)| <= len + 1 else Serialize(fs) == []
    decreases fs
  {
    if fs != [] {
      var f, next := fs[0], pos + |OldEntry(fs[0])|;
      Pieces(s, pos, pos + |OldArea(fs)|, [], OldEntry(f), OldArea(fs[1..]));
      LabelledEntriesEnd(s, len, next, fs[1..]);
      if f.text != [] {
        LabelledEntryEnds(s, len, pos, f);
      }
    }
  }

  /**
   * The buffer was allocated for `oldLen` bytes of labels.  The recomputed total size is within it,
   * unless the last label was cut off at the end of the data and its terminator needs a block more.
   */
  lemma ConvertedFitsIff(s: Bytes, oldLen: nat, fs: seq<Friend>)
    requires AllWellFormed(fs) && ZeroFrom(s, oldLen)
    requires |OldArea(fs)| <= |s| && s[..|OldArea(fs)|] == OldArea(fs)
    ensures Round256(|Serialize(fs)|) <= Round256(oldLen) <==> !(|Serialize(fs)| == oldLen + 1 && oldLen % 256 == 191)
    ensures |OldArea(fs)| <= oldLen ==> Round256(|Serialize(fs)|) <= Round256(oldLen)
  {
    assert s[0..0 + |OldArea(fs)|] == s[..|OldArea(fs)|];
    LabelledEntriesEnd(s, oldLen, 0, fs);
    NewIsShorter(fs);
    Round256Next(oldLen);
    if |Serialize(fs)| <= oldLen {
      Round256Bounds(|Serialize(fs)|, oldLen);
    }
  }

  lemma Round256Next(n: nat)
    ensures Round256(n + 1) <= Round256(n) <==> n % 256 != 191
  {
    var q, r := n / 256, n % 256;
    assert n == 256 * q + r;
    assert (n + 64) / 256 == if r < 192 then q else q + 1;
    assert (n + 65) / 256 == if r < 191 then q else q + 1;
  }

  /** The padding ends a string that was cut off. */
  lemma PaddingEnds(e: Bytes, n: nat, room: nat)
    requires |e| == n + 1 && e[n] == 0 && n < room
    ensures var s := e[..n] + Zeros(room - n);
            && |s| == room && ZeroFrom(s, n) && s[..n + 1] == e && forall i :: 0 <= i < n + 1 ==> s[i] == e[i]
  {
    var s := e[..n] + Zeros(room - n);
    assert forall i :: 0 <= i < n + 1 ==> s[i] == e[i];
  }

  lemma OneFriend(f: Friend)
    requires WellFormed(f) && f.text != []
    ensures AllWellFormed([f]) && OldArea([f]) == OldEntry(f) && Serialize([f]) == Entry(f)
  {
    assert [f][1..] == [];
    assert OldArea([f][1..]) == [] && Serialize([f][1..]) == [];
  }

  /** A label of 187 bytes at the end of 191 bytes of data, without its terminator. */
  lemma CutOffLabelOutgrows(f: Friend)
    requires WellFormed(f) && |f.text| == 187
    ensures var s := OldEntry(f)[..191] + Zeros(Round256(191) - 191);
            && ZeroFrom(s, 191) && OldEntries(s, 0, 1) && |OldArea([f])| == 192 && s[..192] == OldArea([f])
            && Round256(191) == 256 && Round256(|Serialize([f])|) == 512
  {
    var e := OldEntry(f);
    var s := e[..191] + Zeros(Round256(191) - 191);
    OneFriend(f);
    PaddingEnds(e, 191, Round256(191));
    assert forall i :: 4 <= i < 191 ==> s[i] == e[i] == f.text[i - 4];
    StringLenIs(s, 4, 187);
  }

  /** The loop over any area in which it does not run out of the buffer. */
  method ConvertLabels(buf: array<byte>, at: nat, count: nat) returns (len: nat, ghost fs: seq<Friend>)
    requires at <= buf.Length && OldEntries(buf[..], at, count)
    modifies buf
    ensures AllWellFormed(fs) && |fs| == count && at + |OldArea(fs)| <= buf.Length
    ensures old(buf[at..at + |OldArea(fs)|]) == OldArea(fs) && len == |Serialize(fs)| <= |OldArea(fs)|
    ensures buf[..] == old(buf[..at]) + Serialize(fs) + Zeros(|OldArea(fs)| - len) + old(buf[at + |OldArea(fs)|..])
  {
    fs := OldEntriesAreFriends(buf[..], at, count);
    assert buf[..][at..at + |OldArea(fs)|] == buf[at..at + |OldArea(fs)|];
    len := ConvertEntries(buf, at, count, fs);
  }
}
