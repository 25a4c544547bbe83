/**
 * Frames as bytes, and the reassembly of frames from an arbitrary byte stream
 * (src/session/multiplex_handler.c:41-52, 258-294, 577-616).
 */
module Framing {
  import opened Wrappers
  import opened Endpoint
  import opened FlexBuffers

  const HEAD := 8

  /** Room for one frame behind the padding of the reassembly buffer. */
  const ROOM := MAX_LEN - PADDING

  /** A frame whose fields fit the header. */
  predicate Wire(f: Frame) {
    f.ptype < 256 && f.option < 256 && f.local < 65536 && f.remote < 65536 && |f.payload| < 65536
  }

  function U16(n: nat): Bytes
    requires n < 65536
  {
    [n / 256, n % 256]
  }

  /** Network byte order. */
  function Number(s: Bytes, i: nat): nat
    requires i + 1 < |s|
  {
    var high: int := s[i];
    high * 256 + s[i + 1]
  }

  function Encode(f: Frame): Bytes
    requires Wire(f)
  {
    [f.ptype, f.option] + U16(f.local) + U16(f.remote) + U16(|f.payload|) + f.payload
  }

  function FrameLen(s: Bytes): nat
    requires |s| >= HEAD
  {
    HEAD + Number(s, 6)
  }

  function Decode(s: Bytes): Frame
    requires |s| >= HEAD
  {
    Frame(s[0], s[1], Number(s, 2), Number(s, 4), s[HEAD..])
  }

  function EncodeAll(fs: seq<Frame>): Bytes
    requires forall f :: f in fs ==> Wire(f)
  {
    if fs == [] then [] else Encode(fs[0]) + EncodeAll(fs[1..])
  }

  predicate Incomplete(s: Bytes) {
    |s| < HEAD || |s| < FrameLen(s)
  }

  /** Frames handed over so far, and the bytes kept for the next call. */
  datatype Progress = Progress(handed: seq<Frame>, kept: Bytes)

  /** Hands over the frames at the front of `s`. */
  function Parse(handed: seq<Frame>, s: Bytes): Progress
    decreases |s|
  {
    if Incomplete(s) then Progress(handed, s)
    else Parse(handed + [Decode(s[..FrameLen(s)])], s[FrameLen(s)..])
  }

  /** No frame in `s` announces more than the reassembly buffer can hold. */
  predicate Fits(s: Bytes)
    decreases |s|
  {
    |s| < HEAD || (FrameLen(s) <= ROOM && (|s| < FrameLen(s) || Fits(s[FrameLen(s)..])))
  }

  function Clip(s: Bytes): Bytes {
    if |s| <= ROOM then s else s[..ROOM]
  }

  /** What one call does, including what is cut off when there is no room. */
  function Pump(handed: seq<Frame>, kept: Bytes, data: Bytes): (r: Progress)
    requires Incomplete(kept)
    ensures Incomplete(r.kept)
    decreases |kept| + |data|, 1
  {
    if data == [] then Progress(handed, kept)
    else if |kept| + |data| < HEAD then Progress(handed, Clip(kept + data))
    else
      var take := if |kept| < HEAD then HEAD - |kept| else 0;
      PumpFrom(handed, kept + data[..take], data[take..])
  }

  /** The same once the header `head` starts with is there. */
  function PumpFrom(handed: seq<Frame>, head: Bytes, more: Bytes): (r: Progress)
    requires |head| >= HEAD
    ensures Incomplete(r.kept)
    decreases |head| + |more|, 0
  {
    if FrameLen(head) > |head| + |more| then Progress(handed, Clip(head + more))
    else
      var need := if FrameLen(head) > |head| then FrameLen(head) - |head| else 0;
      var whole := Clip(head + more[..need]);
      Pump(if |whole| == FrameLen(head) then handed + [Decode(whole)] else handed, [], more[need..])
  }

  /** Type and option, then both ids and the length of the payload in network byte order, then the payload. */
  lemma Layout(f: Frame)
    requires Wire(f)
    ensures var s := Encode(f); var n: seq<int> := s;
            && |s| == 8 + |f.payload| && s[8..] == f.payload && n[0] == f.ptype && n[1] == f.option
            && 256 * n[2] + n[3] == f.local && 256 * n[4] + n[5] == f.remote && 256 * n[6] + n[7] == |f.payload|
  {
  }

  // ---------------------------------------------------------------- round trip

  lemma DecodeEncode(f: Frame)
    requires Wire(f)
    ensures |Encode(f)| == HEAD + |f.payload| == FrameLen(Encode(f))
    ensures Decode(Encode(f)) == f
  {
    assert Encode(f)[HEAD..] == f.payload;
  }

  lemma {:induction false} ParseEncodeAll(handed: seq<Frame>, fs: seq<Frame>)
    requires forall f :: f in fs ==> Wire(f)
    ensures Parse(handed, EncodeAll(fs)) == Progress(handed + fs, [])
    decreases fs
  {
    if fs == [] {
      assert handed + fs == handed;
    } else {
      var s, e := EncodeAll(fs), Encode(fs[0]);
      DecodeEncode(fs[0]);
      ParseEncodeAll(handed + [fs[0]], fs[1..]);
      assert s[6] == e[6] && s[7] == e[7];
      assert s[..|e|] == e && s[|e|..] == EncodeAll(fs[1..]);
      assert handed + fs == (handed + [fs[0]]) + fs[1..];
    }
  }

  // ---------------------------------------------------------------- chunks

  /** Parsing in two goes is parsing in one. */
  lemma {:induction false} ParseSplit(handed: seq<Frame>, a: Bytes, b: Bytes)
    ensures var p := Parse(handed, a);
            Parse(handed, a + b) == Parse(p.handed, p.kept + b)
    decreases |a|
  {
    if !Incomplete(a) {
      var n := FrameLen(a);
      assert (a + b)[6] == a[6] && (a + b)[7] == a[7];
      assert (a + b)[..n] == a[..n] && (a + b)[n..] == a[n..] + b;
      ParseSplit(handed + [Decode(a[..n])], a[n..], b);
    }
  }

  lemma {:induction false} FitsSplit(handed: seq<Frame>, a: Bytes, b: Bytes)
    requires Fits(a + b)
    ensures Fits(a) && Fits(Parse(handed, a).kept + b)
    decreases |a|
  {
    if |a| >= HEAD {
      assert (a + b)[6] == a[6] && (a + b)[7] == a[7];
      if !Incomplete(a) {
        var n := FrameLen(a);
        assert (a + b)[n..] == a[n..] + b;
        FitsSplit(handed + [Decode(a[..n])], a[n..], b);
      }
    }
  }

  lemma {:induction false} RestIncomplete(handed: seq<Frame>, s: Bytes)
    ensures Incomplete(Parse(handed, s).kept)
    decreases |s|
  {
    if !Incomplete(s) {
      RestIncomplete(handed + [Decode(s[..FrameLen(s)])], s[FrameLen(s)..]);
    }
  }

  /** As long as frames fit, the buffer loses nothing: the receiver parses the stream. */
  lemma {:induction false} PumpIsParse(handed: seq<Frame>, kept: Bytes, data: Bytes)
    requires Incomplete(kept) && Fits(kept + data)
    ensures Pump(handed, kept, data) == Parse(handed, kept + data)
    decreases |kept| + |data|, 1
  {
    if data == [] {
      assert kept + data == kept;
    } else if |kept| + |data| >= HEAD {
      var take := if |kept| < HEAD then HEAD - |kept| else 0;
      var head, more := kept + data[..take], data[take..];
      assert head + more == kept + data;
      assert take == 0 ==> head == kept;
      PumpFromIsParse(handed, head, more);
    }
  }

  lemma {:induction false} PumpFromIsParse(handed: seq<Frame>, head: Bytes, more: Bytes)
    requires |head| >= HEAD && |head| <= FrameLen(head) && Fits(head + more)
    ensures PumpFrom(handed, head, more) == Parse(handed, head + more)
    decreases |head| + |more|, 0
  {
    var s, n := head + more, FrameLen(head);
    assert head[6] == s[6] && head[7] == s[7];
    assert FrameLen(s) == n;
    if n <= |s| {
      var need := n - |head|;
      assert head + more[..need] == s[..n] && Clip(s[..n]) == s[..n];
      assert more[need..] == s[n..] == [] + s[n..];
      PumpIsParse(handed + [Decode(s[..n])], [], s[n..]);
    }
  }

  /** What a sequence of calls does. */
  function Feed(handed: seq<Frame>, kept: Bytes, chunks: seq<Bytes>): Progress
    requires Incomplete(kept)
    decreases chunks
  {
    if chunks == [] then Progress(handed, kept)
    else
      var p := Pump(handed, kept, chunks[0]);
      Feed(p.handed, p.kept, chunks[1..])
  }

  lemma {:induction false} FeedIsParse(handed: seq<Frame>, kept: Bytes, chunks: seq<Bytes>)
    requires Incomplete(kept) && Fits(kept + Join(chunks))
    ensures Feed(handed, kept, chunks) == Parse(handed, kept + Join(chunks))
    decreases chunks
  {
    if chunks == [] {
      assert kept + Join(chunks) == kept;
    } else {
      var a, rest := kept + chunks[0], Join(chunks[1..]);
      assert kept + Join(chunks) == a + rest;
      FitsSplit(handed, a, rest);
      PumpIsParse(handed, kept, chunks[0]);
      var p := Parse(handed, a);
      FeedIsParse(p.handed, p.kept, chunks[1..]);
      ParseSplit(handed, a, rest);
    }
  }

  const MAX_PAYLOAD := ROOM - HEAD

  lemma {:induction false} EncodedFits(fs: seq<Frame>)
    requires forall f :: f in fs ==> Wire(f) && |f.payload| <= MAX_PAYLOAD
    ensures Fits(EncodeAll(fs))
  {
    if fs != [] {
      var s, e := EncodeAll(fs), Encode(fs[0]);
      DecodeEncode(fs[0]);
      EncodedFits(fs[1..]);
      assert s[6] == e[6] && s[7] == e[7];
      assert s[|e|..] == EncodeAll(fs[1..]);
    }
  }

  /** However the stream is cut into chunks, exactly the frames that were sent come out. */
  lemma ChunkingDoesNotMatter(fs: seq<Frame>, chunks: seq<Bytes>)
    requires forall f :: f in fs ==> Wire(f) && |f.payload| <= MAX_PAYLOAD
    requires Join(chunks) == EncodeAll(fs)
    ensures Feed([], [], chunks) == Progress(fs, [])
  {
    assert [] + Join(chunks) == EncodeAll(fs);
    EncodedFits(fs);
    FeedIsParse([], [], chunks);
    ParseEncodeAll([], fs);
    assert [] + fs == fs;
  }

  /** A frame that is too long for the buffer is dropped even when it arrives in one piece. */
  lemma PumpOne(handed: seq<Frame>, f: Frame, rest: Bytes)
    requires Wire(f)
    ensures Pump(handed, [], Encode(f) + rest) ==
            Pump(if |f.payload| <= MAX_PAYLOAD then handed + [f] else handed, [], rest)
  {
    var e := Encode(f);
    var s := e + rest;
    DecodeEncode(f);
    var head, more := [] + s[..HEAD], s[HEAD..];
    assert head == e[..HEAD] && more == e[HEAD..] + rest;
    assert head[6] == e[6] && head[7] == e[7];
    assert FrameLen(head) == |e|;
    assert Pump(handed, [], s) == PumpFrom(handed, head, more);
    PumpFromOne(handed, f, rest, head, more);
  }

  lemma PumpFromOne(handed: seq<Frame>, f: Frame, rest: Bytes, head: Bytes, more: Bytes)
    requires Wire(f) && head == Encode(f)[..HEAD] && more == Encode(f)[HEAD..] + rest && FrameLen(head) == |Encode(f)|
    ensures PumpFrom(handed, head, more) == Pump(if |f.payload| <= MAX_PAYLOAD then handed + [f] else handed, [], rest)
  {
    var e := Encode(f);
    DecodeEncode(f);
    var need := |e| - HEAD;
    assert head + more[..need] == e && more[need..] == rest;
    assert |Clip(e)| == |e| <==> |f.payload| <= MAX_PAYLOAD;
  }

  lemma {:induction false} PumpCount(handed: seq<Frame>, fs: seq<Frame>)
    requires forall f :: f in fs ==> Wire(f)
    ensures var n := |Pump(handed, [], EncodeAll(fs)).handed|;
            n <= |handed| + |fs| && (n == |handed| + |fs| ==> forall f :: f in fs ==> |f.payload| <= MAX_PAYLOAD)
    decreases fs
  {
    if fs != [] {
      PumpOne(handed, fs[0], EncodeAll(fs[1..]));
      PumpCount(if |fs[0].payload| <= MAX_PAYLOAD then handed + [fs[0]] else handed, fs[1..]);
      assert fs == [fs[0]] + fs[1..];
    }
  }

  lemma FeedOne(data: Bytes)
    ensures Join([data]) == data
    ensures Feed([], [], [data]) == Pump([], [], data)
  {
    assert [data][1..] == [];
    assert data + [] == data;
  }

  /** The exact condition for every chunking to work: no payload above 2168 bytes. */
  lemma AllChunkingsWorkIff(fs: seq<Frame>)
    requires forall f :: f in fs ==> Wire(f)
    ensures MAX_PAYLOAD == 2168
    ensures (forall chunks :: Join(chunks) == EncodeAll(fs) ==> Feed([], [], chunks) == Progress(fs, []))
            <==> (forall f :: f in fs ==> |f.payload| <= MAX_PAYLOAD)
  {
    if forall f :: f in fs ==> |f.payload| <= MAX_PAYLOAD {
      forall chunks | Join(chunks) == EncodeAll(fs) ensures Feed([], [], chunks) == Progress(fs, []) {
        ChunkingDoesNotMatter(fs, chunks);
      }
    } else {
      FeedOne(EncodeAll(fs));
      PumpCount([], fs);
      assert Feed([], [], [EncodeAll(fs)]) != Progress(fs, []);
    }
  }

  lemma PumpHead(handed: seq<Frame>, kept: Bytes, data: Bytes)
    requires Incomplete(kept) && |kept| <= ROOM && data != [] && |kept| + |data| >= HEAD
    ensures var take := if HEAD > |kept| then HEAD - |kept| else 0;
            var head := Clip(kept + data[..take]);
            && |head| >= HEAD && |head| + |data[take..]| == |kept| + |data|
            && Pump(handed, kept, data) == PumpFrom(handed, head, data[take..])
  {
  }

  // ---------------------------------------------------------------- the receiver

  class Receiver {
    const incomplete: FlexBuffer
    var handed: seq<Frame>  // packets passed on to the channel table

    constructor ()
      ensures Valid() && handed == [] && Kept() == []
      ensures fresh(incomplete) && fresh(incomplete.buffer)
    {
      incomplete := new FlexBuffer(MAX_LEN, PADDING);
      handed := [];
    }

    ghost predicate Valid()
      reads this, incomplete, incomplete.buffer
    {
      && incomplete.Valid()
      && incomplete.buffer.Length == MAX_LEN
      && incomplete.offset == PADDING
      && Incomplete(incomplete.Content())
    }

    ghost function Kept(): Bytes
      requires incomplete.Valid()
      reads incomplete, incomplete.buffer
    {
      incomplete.Content()
    }

    /** A packet whose size does not match its header is ignored. */
    method NotifyPacket()
      requires incomplete.Valid() && incomplete.size >= HEAD
      modifies this`handed
      ensures handed == if |Kept()| == FrameLen(Kept()) then old(handed) + [Decode(Kept())] else old(handed)
    {
      var base := incomplete.offset;
      var b := incomplete.buffer;
      var len: int := b[base + 6];
      len := len * 256 + b[base + 7];
      if incomplete.size != len + HEAD {
        return;
      }
      var local: int, remote: int := b[base + 2], b[base + 4];
      handed := handed + [Frame(b[base], b[base + 1], local * 256 + b[base + 3], remote * 256 + b[base + 5],
                                b[base + HEAD..base + incomplete.size])];
    }

    /** The buffer as it was set up; what it holds may be anything. */
    ghost predicate Ready()
      reads this, incomplete
    {
      incomplete.Valid() && incomplete.buffer.Length == MAX_LEN && incomplete.offset == PADDING
    }

    ghost predicate Apart(data: FlexBuffer)
      reads this, incomplete, data
    {
      Ready() && data.Valid() && data != incomplete && data.buffer != incomplete.buffer
    }

    /** Moves bytes over until `n` are held, or as many as there is room for. */
    method FillTo(data: FlexBuffer, n: nat)
      requires Apart(data) && n <= incomplete.size + data.size
      modifies incomplete, incomplete.buffer, data
      ensures Apart(data)
      ensures var need := if n > |old(Kept())| then n - |old(Kept())| else 0;
              Kept() == Clip(old(Kept()) + old(data.Content())[..need]) && data.Content() == old(data.Content())[need..]
    {
      if incomplete.size < n {
        var append := n - incomplete.size;
        assert data.buffer[data.offset..data.offset + Min(append, incomplete.Available())]
               == data.Content()[..Min(append, incomplete.Available())];
        incomplete.Append2(data, append);
        data.ForwardOffset(append);
      }
    }

    method KeepAll(data: FlexBuffer)
      requires Apart(data)
      modifies incomplete, incomplete.buffer
      ensures Apart(data) && Kept() == Clip(old(Kept()) + data.Content())
    {
      incomplete.Append(data);
    }

    /** The payload length announced by the header held. */
    method PayloadLen() returns (len: nat)
      requires Ready() && incomplete.size >= HEAD
      ensures len + HEAD == FrameLen(Kept())
    {
      var high: int := incomplete.buffer[incomplete.offset + 6];
      len := high * 256 + incomplete.buffer[incomplete.offset + 7];
    }

    /** The frame of `n` bytes whose header is held is filled up and handed over. */
    method Finish(data: FlexBuffer, n: nat)
      requires Apart(data) && incomplete.size >= HEAD && n == FrameLen(Kept()) <= incomplete.size + data.size
      modifies this`handed, incomplete, incomplete.buffer, data
      ensures Apart(data) && Kept() == []
      ensures var need := if n > |old(Kept())| then n - |old(Kept())| else 0;
              var whole := Clip(old(Kept()) + old(data.Content())[..need]);
              && handed == (if |whole| == n then old(handed) + [Decode(whole)] else old(handed))
              && data.Content() == old(data.Content())[need..]
    {
      ghost var head := Kept();
      FillTo(data, n);
      ghost var whole := Kept();
      assert whole[6] == head[6] && whole[7] == head[7];
      NotifyPacket();
      incomplete.Reset(PADDING);
    }

    /** The frame whose header is held is completed and handed over, or everything is kept. */
    method Complete(data: FlexBuffer) returns (more: bool)
      requires Apart(data) && incomplete.size >= HEAD
      modifies this`handed, incomplete, incomplete.buffer, data
      ensures Apart(data) && data.size <= old(data.size) && Incomplete(Kept()) && (more ==> Kept() == [])
      ensures PumpFrom(old(handed), old(Kept()), old(data.Content())) ==
              if more then Pump(handed, [], data.Content()) else Progress(handed, Kept())
    {
      var len := PayloadLen();
      ghost var before, head, rest := handed, Kept(), data.Content();
      ghost var result := PumpFrom(before, head, rest);
      if len + HEAD > incomplete.size + data.size {
        assert result == Progress(before, Clip(head + rest)) && Incomplete(result.kept);
        KeepAll(data);
        assert Kept() == result.kept;
        return false;
      }
      ghost var need := if len + HEAD > |head| then len + HEAD - |head| else 0;
      Finish(data, len + HEAD);
      assert data.Content() == rest[need..] && Kept() == [];
      assert result == Pump(handed, [], rest[need..]);
      more := true;
    }

    /** Completes the header. */
    method FillHead(data: FlexBuffer)
      requires Valid() && Apart(data) && data.size != 0 && incomplete.size + data.size >= HEAD
      modifies incomplete, incomplete.buffer, data
      ensures Apart(data) && incomplete.size >= HEAD
      ensures incomplete.size + data.size == old(incomplete.size) + old(data.size)
      ensures PumpFrom(handed, Kept(), data.Content()) == Pump(handed, old(Kept()), old(data.Content()))
    {
      ghost var kept, rest := Kept(), data.Content();
      ghost var take := if HEAD > |kept| then HEAD - |kept| else 0;
      PumpHead(handed, kept, rest);
      FillTo(data, HEAD);
      assert Kept() == Clip(kept + rest[..take]) && data.Content() == rest[take..];
    }

    /** One round of the loop below. */
    method Round(data: FlexBuffer) returns (more: bool)
      requires Valid() && Apart(data) && data.size != 0
      modifies this`handed, incomplete, incomplete.buffer, data
      ensures Valid() && Apart(data)
      ensures more ==> |Kept()| + data.size < |old(Kept())| + old(data.size)
      ensures Pump(old(handed), old(Kept()), old(data.Content())) ==
              if more then Pump(handed, Kept(), data.Content()) else Progress(handed, Kept())
    {
      if incomplete.size + data.size < HEAD {
        KeepAll(data);
        return false;
      }
      FillHead(data);
      more := Complete(data);
    }

    /** Reads `data` to its end; what is kept for the next call is the start of one frame. */
    method NotifyData(data: FlexBuffer)
      requires Valid() && Apart(data)
      modifies this`handed, incomplete, incomplete.buffer, data
      ensures Valid()
      ensures Progress(handed, Kept()) == Pump(old(handed), old(Kept()), old(data.Content()))
    {
      while data.size != 0
        invariant Valid() && Apart(data)
        invariant Pump(handed, Kept(), data.Content()) == Pump(old(handed), old(Kept()), old(data.Content()))
        decreases |Kept()| + data.size
      {
        var more := Round(data);
        if !more {
          return;
        }
      }
    }
  }
}
