/**
 * Friend labels in the data file: sizing and writing them, and building the whole image
 * (src/carrier/ela_carrier.c:855-913, 921-978).
 */
module Labels {
  import opened Wrappers
  import opened Image

  /** A label is a C string: no byte of it is zero. */
  datatype Friend = Friend(number: nat, text: Bytes)

  predicate WellFormed(f: Friend) {
    f.number < TWO32 && 0 !in f.text
  }

  predicate AllWellFormed(fs: seq<Friend>) {
    forall i :: 0 <= i < |fs| ==> WellFormed(fs[i])
  }

  function Entry(f: Friend): (s: Bytes)
    requires WellFormed(f)
    ensures |s| == 4 + |f.text| + 1
  {
    U32(f.number) + f.text + [0]
  }

  /** Only friends that have a label are written. */
  function Serialize(fs: seq<Friend>): Bytes
    requires AllWellFormed(fs)
  {
    if fs == [] then [] else (if fs[0].text == [] then [] else Entry(fs[0])) + Serialize(fs[1..])
  }

  /** The entries get_extra_savedata writes when it has room for `len` bytes. */
  function Fitting(fs: seq<Friend>, len: nat): Bytes
    requires AllWellFormed(fs)
    decreases fs
  {
    if fs == [] || len == 0 then []
    else if fs[0].text == [] then Fitting(fs[1..], len)
    else if len < |Entry(fs[0])| then []
    else Entry(fs[0]) + Fitting(fs[1..], len - |Entry(fs[0])|)
  }

  lemma {:induction false} FittingBound(fs: seq<Friend>, len: nat)
    requires AllWellFormed(fs)
    ensures |Fitting(fs, len)| <= len
    decreases fs
  {
    if fs != [] && len > 0 {
      if fs[0].text == [] {
        FittingBound(fs[1..], len);
      } else if len >= |Entry(fs[0])| {
        FittingBound(fs[1..], len - |Entry(fs[0])|);
      }
    }
  }

  /** When room is short the first entries are written, up to the first one that does not fit. */
  lemma {:induction false} FittingIsFront(fs: seq<Friend>, len: nat) returns (k: nat)
    requires AllWellFormed(fs)
    ensures k <= |fs| && Fitting(fs, len) == Serialize(fs[..k])
    ensures k < |fs| ==> fs[k].text != [] && |Fitting(fs, len)| + |Entry(fs[k])| > len
    decreases fs
  {
    if fs == [] {
      k := 0;
    } else if fs[0].text == [] {
      var j := FittingIsFront(fs[1..], len);
      k := j + 1;
      assert fs[..k][1..] == fs[1..][..j];
      assert len == 0 ==> Fitting(fs[1..], len) == [];
    } else if len < |Entry(fs[0])| {
      k := 0;
    } else {
      var j := FittingIsFront(fs[1..], len - |Entry(fs[0])|);
      k := j + 1;
      assert fs[..k][1..] == fs[1..][..j];
    }
  }

  lemma SameFront(e: Bytes, a: Bytes, b: Bytes)
    ensures e + a == e + b <==> a == b
  {
    assert (e + a)[|e|..] == a && (e + b)[|e|..] == b;
  }

  /** With as much room as computed beforehand nothing is left out. */
  lemma {:induction false} NothingLeftOut(fs: seq<Friend>, len: nat)
    requires AllWellFormed(fs)
    ensures Fitting(fs, len) == Serialize(fs) <==> |Serialize(fs)| <= len
    decreases fs
  {
    if fs != [] {
      if fs[0].text == [] {
        NothingLeftOut(fs[1..], len);
        assert Serialize(fs) == Serialize(fs[1..]);
        assert len == 0 ==> Fitting(fs[1..], len) == [];
      } else {
        var e := Entry(fs[0]);
        assert Serialize(fs) == e + Serialize(fs[1..]);
        if len >= |e| {
          NothingLeftOut(fs[1..], len - |e|);
          SameFront(e, Fitting(fs[1..], len - |e|), Serialize(fs[1..]));
        } else {
          assert Fitting(fs, len) == [];
        }
      }
    }
  }

  // ---------------------------------------------------------------- writing

  /** get_extra_savedata_size */
  method ExtraSize(fs: seq<Friend>) returns (total: nat)
    requires AllWellFormed(fs)
    ensures total == |Serialize(fs)|
  {
    total := 0;
    for i := 0 to |fs|
      invariant total + |Serialize(fs[i..])| == |Serialize(fs)|
    {
      assert fs[i..][1..] == fs[i + 1..];
      var len := |fs[i].text|;
      if len != 0 {
        total := total + 4 + len + 1;
      }
    }
  }

  lemma CopyTwice(before: Bytes, at: nat, a: Bytes, b: Bytes)
    requires at + |a| + |b| <= |before|
    ensures var mid := before[..at] + a + before[at + |a|..];
            mid[..at + |a|] + b + mid[at + |a| + |b|..] == before[..at] + (a + b) + before[at + |a| + |b|..]
  {
  }

  /** `buf` is `before` with `done` written at `at`. */
  ghost predicate Written(buf: array<byte>, before: Bytes, at: nat, done: Bytes)
    reads buf
  {
    at + |done| <= |before| && buf[..] == before[..at] + done + before[at + |done|..]
  }

  method WriteEntry(f: Friend, buf: array<byte>, ghost before: Bytes, ghost at: nat, ghost done: Bytes, pos: nat)
    requires WellFormed(f) && Written(buf, before, at, done)
    requires pos == at + |done| && pos + |Entry(f)| <= buf.Length
    modifies buf
    ensures Written(buf, before, at, done + Entry(f))
  {
    Copy(buf, pos, U32(f.number) + f.text + [0]);
    CopyTwice(before, at, done, Entry(f));
  }

  lemma FittingStep(fs: seq<Friend>, done: Bytes, len: nat)
    requires AllWellFormed(fs) && fs != [] && fs[0].text != [] && len >= |Entry(fs[0])|
    ensures done + Fitting(fs, len) == (done + Entry(fs[0])) + Fitting(fs[1..], len - |Entry(fs[0])|)
  {
    var e := Entry(fs[0]);
    assert Fitting(fs, len) == e + Fitting(fs[1..], len - |e|);
  }

  lemma FittingSkip(fs: seq<Friend>, i: nat, len: nat)
    requires AllWellFormed(fs) && i < |fs|
    ensures fs[i..][0] == fs[i] && fs[i..][1..] == fs[i + 1..]
    ensures fs[i].text == [] ==> Fitting(fs[i..], len) == Fitting(fs[i + 1..], len)
  {
    assert fs[i..][1..] == fs[i + 1..];
    assert len == 0 ==> Fitting(fs[i + 1..], len) == [];
  }

  /** The friends before `i` are done, and there is room for `len` more bytes. */
  ghost predicate Partly(fs: seq<Friend>, i: nat, len: nat, all: Bytes, done: Bytes) {
    AllWellFormed(fs) && i <= |fs| && all == done + Fitting(fs[i..], len)
  }

  lemma FinishedWhen(fs: seq<Friend>, i: nat, len: nat, all: Bytes, done: Bytes)
    requires Partly(fs, i, len, all, done) && (i == |fs| || len == 0)
    ensures all == done
  {
    assert done + [] == done;
  }

  /** One round of the loop below: friend `i` is passed over, or written if it fits. */
  method WriteNext(fs: seq<Friend>, i: nat, buf: array<byte>, ghost before: Bytes, ghost at: nat, ghost all: Bytes, ghost done: Bytes,
                   pos: nat, len: nat)
    returns (ok: bool, pos': nat, len': nat, ghost more: Bytes)
    requires Partly(fs, i, len, all, done) && i < |fs|
    requires Written(buf, before, at, done) && pos == at + |done| && pos + len <= buf.Length
    modifies buf
    ensures Written(buf, before, at, more) && pos' == at + |more| && pos' + len' == pos + len
    ensures if ok then Partly(fs, i + 1, len', all, more) else all == more
  {
    ok, pos', len', more := true, pos, len, done;
    FittingSkip(fs, i, len);
    var f := fs[i];
    if |f.text| > 0 {
      if len < 4 + |f.text| + 1 {
        assert done + [] == done;
        ok := false;
      } else {
        FittingStep(fs[i..], done, len);
        WriteEntry(f, buf, before, at, done, pos);
        more := done + Entry(f);
        pos', len' := pos + 4 + |f.text| + 1, len - (4 + |f.text| + 1);
      }
    }
  }

  /** get_extra_savedata */
  method WriteExtra(fs: seq<Friend>, buf: array<byte>, at: nat, room: nat)
    requires AllWellFormed(fs) && at + room <= buf.Length
    modifies buf
    ensures |Fitting(fs, room)| <= room && Written(buf, old(buf[..]), at, Fitting(fs, room))
  {
    FittingBound(fs, room);
    ghost var before := buf[..];
    var i, pos, len := 0, at, room;
    ghost var all, done: Bytes := Fitting(fs, room), [];
    assert fs[0..] == fs && [] + all == all;
    var ok := true;
    while ok && i < |fs| && len > 0
      invariant pos == at + |done| && pos + len == at + room
      invariant Written(buf, before, at, done)
      invariant if ok then Partly(fs, i, len, all, done) else all == done
      decreases ok, |fs| - i
    {
      ok, pos, len, done := WriteNext(fs, i, buf, before, at, all, done, pos, len);
      i := i + 1;
    }
    if ok {
      FinishedWhen(fs, i, len, all, done);
    }
  }

  // ---------------------------------------------------------------- the whole image

  /** One more field behind those already written at the start of the buffer. */
  method PutField(buf: array<byte>, ghost before: Bytes, ghost done: Bytes, at: nat, value: nat) returns (ghost more: Bytes)
    requires value < TWO32 && at == |done| && at + 4 <= buf.Length && Written(buf, before, 0, done)
    modifies buf
    ensures more == done + U32(value) && Written(buf, before, 0, more)
  {
    Copy(buf, at, U32(value));
    CopyTwice(before, 0, done, U32(value));
    more := done + U32(value);
  }

  method PutFields(buf: array<byte>, dhtLen: nat, extraLen: nat)
    requires dhtLen < TWO32 && extraLen < TWO32 && buf.Length >= HEADER
    modifies buf
    ensures Written(buf, old(buf[..]), 0, U32(MAGIC) + U32(REVISION) + U32(dhtLen) + U32(extraLen))
  {
    ghost var before, done := buf[..], [];
    done := PutField(buf, before, done, 0, MAGIC);
    done := PutField(buf, before, done, 4, REVISION);
    done := PutField(buf, before, done, 8, dhtLen);
    done := PutField(buf, before, done, 12, extraLen);
    assert [] + U32(MAGIC) == U32(MAGIC);
  }

  /** Data copied to the start of zeroed room makes a section. */
  lemma Filled(room: Bytes, data: Bytes)
    requires |room| == Round256(|data|) && |data| <= |room| && room == Zeros(|room|)
    ensures data + room[|data|..] == Section(data)
  {
  }

  method PutDht(buf: array<byte>, dht: Bytes, room: nat)
    requires room == Round256(|dht|) && HEADER + room <= buf.Length && buf[HEADER..HEADER + room] == Zeros(room)
    modifies buf
    ensures buf[..] == old(buf[..HEADER]) + Section(dht) + old(buf[HEADER + room..])
  {
    Round256Bounds(|dht|, |dht|);
    ghost var zeros, tail := buf[HEADER..HEADER + room], buf[HEADER + room..];
    Filled(zeros, dht);
    ghost var front, rest := buf[..HEADER], buf[HEADER + |dht|..];
    assert rest == zeros[|dht|..] + tail;
    Copy(buf, HEADER, dht);
    assert front + dht + rest == front + (dht + zeros[|dht|..]) + tail;
  }

  method PutExtra(buf: array<byte>, fs: seq<Friend>, at: nat, room: nat)
    requires AllWellFormed(fs) && room == Round256(|Serialize(fs)|)
    requires at + room == buf.Length && buf[at..] == Zeros(room)
    modifies buf
    ensures buf[..] == old(buf[..at]) + Section(Serialize(fs))
  {
    Round256Bounds(|Serialize(fs)|, |Serialize(fs)|);
    NothingLeftOut(fs, room);
    ghost var zeros, n := buf[at..], |Serialize(fs)|;
    Filled(zeros, Serialize(fs));
    assert buf[at + n..] == zeros[n..];
    WriteExtra(fs, buf, at, room);
  }

  lemma BothSections(before: Bytes, mid: Bytes, after: Bytes, at: nat, a: Bytes, b: Bytes)
    requires at + |a| <= |before| && mid == before[..at] + a + before[at + |a|..]
    requires after == mid[..at + |a|] + b
    ensures after[..at] == before[..at] && after[at..] == a + b
  {
    assert mid[..at + |a|] == before[..at] + a;
  }

  /** Both sections of a zeroed body. */
  method PutSections(buf: array<byte>, dht: Bytes, fs: seq<Friend>, dhtRoom: nat, extraRoom: nat)
    requires AllWellFormed(fs) && dhtRoom == Round256(|dht|) && extraRoom == Round256(|Serialize(fs)|)
    requires buf.Length == HEADER + dhtRoom + extraRoom && buf[HEADER..] == Zeros(dhtRoom + extraRoom)
    modifies buf
    ensures buf[..HEADER] == old(buf[..HEADER]) && buf[HEADER..] == Body(Saved(dht, Serialize(fs)))
  {
    ghost var zeros := buf[HEADER..];
    assert buf[HEADER..HEADER + dhtRoom] == zeros[..dhtRoom] && buf[HEADER + dhtRoom..] == zeros[dhtRoom..];
    ghost var before := buf[..];
    PutDht(buf, dht, dhtRoom);
    assert buf[HEADER + dhtRoom..] == Zeros(extraRoom);
    ghost var mid := buf[..];
    PutExtra(buf, fs, HEADER + dhtRoom, extraRoom);
    BothSections(before, mid, buf[..], HEADER, Section(dht), Section(Serialize(fs)));
  }

  /** The hash between the fields and the zeros behind them. */
  lemma HashInHeader(before: Bytes, fields: Bytes, hash: Bytes, body: Bytes)
    requires |before| >= HEADER && |fields| == 16 && |hash| == HASH
    requires before[..HEADER] == fields + Zeros(HEADER - 16) && before[HEADER..] == body
    ensures before[..16] + hash + before[16 + HASH..] == fields + hash + Zeros(HEADER - 16 - HASH) + body
  {
    assert before == fields + Zeros(HEADER - 16) + body;
  }

  /** The hash goes behind the four fields. */
  method PutHash(h: Hash, buf: array<byte>, ghost v: Saved)
    requires Hashes(h) && Storable(v) && buf.Length >= HEADER && buf[HEADER..] == Body(v)
    requires buf[..HEADER] == U32(MAGIC) + U32(REVISION) + U32(|v.dht|) + U32(|v.extra|) + Zeros(HEADER - 16)
    modifies buf
    ensures buf[..] == ImageOf(h, v)
  {
    ghost var before := buf[..];
    HashInHeader(before, U32(MAGIC) + U32(REVISION) + U32(|v.dht|) + U32(|v.extra|), h(Body(v)), Body(v));
    Copy(buf, 16, h(buf[HEADER..]));
  }

  /** Header fields, DHT data, labels and hash, written one by one into a zeroed buffer. */
  method BuildImage(h: Hash, dht: Bytes, fs: seq<Friend>) returns (buf: array<byte>)
    requires Hashes(h) && AllWellFormed(fs) && Storable(Saved(dht, Serialize(fs)))
    ensures fresh(buf) && buf[..] == ImageOf(h, Saved(dht, Serialize(fs)))
  {
    var extraLen := ExtraSize(fs);
    Round256Bounds(|dht|, |dht|);
    Round256Bounds(extraLen, extraLen);
    var dhtRoom, extraRoom := Round256(|dht|), Round256(extraLen);
    buf := new byte[HEADER + dhtRoom + extraRoom](_ => 0);
    PutFields(buf, |dht|, extraLen);
    assert buf[..HEADER] == U32(MAGIC) + U32(REVISION) + U32(|dht|) + U32(extraLen) + Zeros(HEADER - 16);
    assert buf[HEADER..] == Zeros(dhtRoom + extraRoom);
    PutSections(buf, dht, fs, dhtRoom, extraRoom);
    PutHash(h, buf, Saved(dht, Serialize(fs)));
  }
}
