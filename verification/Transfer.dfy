/**
 * A resumed transfer of one file: the receiver pulls from the end of what it has, the sender sends the
 * rest in chunks (src/filetransfer/easyfile.c:80-238).
 */
module Transfer {
  import opened Wrappers

  const CHUNK: nat := 2048

  function Len(rest: nat): nat { if rest > CHUNK then CHUNK else rest }

  function Chunks(rest: Bytes): seq<Bytes>
    decreases |rest|
  {
    if rest == [] then [] else [rest[..Len(|rest|)]] + Chunks(rest[Len(|rest|)..])
  }

  lemma {:induction false} ChunksJoin(rest: Bytes)
    ensures Join(Chunks(rest)) == rest
    ensures forall c <- Chunks(rest) :: 0 < |c| <= 2048
    ensures forall i :: 0 <= i < |Chunks(rest)| - 1 ==> |Chunks(rest)[i]| == 2048
    decreases |rest|
  {
    if rest != [] {
      ChunksJoin(rest[Len(|rest|)..]);
      assert Chunks(rest)[1..] == Chunks(rest[Len(|rest|)..]);
      assert rest == rest[..Len(|rest|)] + rest[Len(|rest|)..];
    }
  }

  /** The positions reported while these chunks are sent from `offset`. */
  function Marks(offset: nat, chunks: seq<Bytes>): seq<nat>
    decreases |chunks|
  {
    if chunks == [] then [] else Marks(offset, chunks[..|chunks| - 1]) + [offset + |Join(chunks)|]
  }

  lemma MarksAppend(offset: nat, chunks: seq<Bytes>, c: Bytes)
    ensures Marks(offset, chunks + [c]) == Marks(offset, chunks) + [offset + |Join(chunks + [c])|]
  {
    assert (chunks + [c])[..|chunks|] == chunks;
  }

  /** Progress strictly increases, from behind the offset to the last byte sent. */
  lemma {:induction false} ProgressIncreases(offset: nat, chunks: seq<Bytes>)
    requires chunks != [] && forall c <- chunks :: c != []
    ensures var marks := Marks(offset, chunks);
            && |marks| == |chunks| && offset < marks[0] && marks[|marks| - 1] == offset + |Join(chunks)|
            && forall i :: 0 < i < |marks| ==> marks[i - 1] < marks[i]
    decreases |chunks|
  {
    var n := |chunks| - 1;
    assert chunks == chunks[..n] + [chunks[n]];
    JoinAppend(chunks[..n], chunks[n]);
    MarksAppend(offset, chunks[..n], chunks[n]);
    assert chunks[n] in chunks && |chunks[n]| > 0;
    assert |Join(chunks)| == |Join(chunks[..n])| + |chunks[n]|;
    if n > 0 {
      assert forall c <- chunks[..n] :: c in chunks;
      ProgressIncreases(offset, chunks[..n]);
    } else {
      assert chunks[..n] == [];
    }
  }

  /** So a complete run of the sending loop reports an increasing progress that ends at the file size. */
  lemma ProgressReachesTheEnd(content: Bytes, offset: nat)
    requires offset < |content|
    ensures var marks := Marks(offset, Chunks(content[offset..]));
            marks != [] && marks[|marks| - 1] == |content| && forall i :: 0 < i < |marks| ==> marks[i - 1] < marks[i]
  {
    var chunks := Chunks(content[offset..]);
    ChunksJoin(content[offset..]);
    ProgressIncreases(offset, chunks);
  }

  lemma FirstChunk(content: Bytes, off: nat)
    requires off < |content|
    ensures var n := Len(|content| - off);
            Chunks(content[off..]) == [content[off..off + n]] + Chunks(content[off + n..])
  {
    var n := Len(|content| - off);
    assert content[off..][..n] == content[off..off + n] && content[off..][n..] == content[off + n..];
  }

  lemma NextChunk(content: Bytes, off: nat, sent: seq<Bytes>, all: seq<Bytes>)
    requires off < |content| && Begins(sent, all) && all[|sent|..] == Chunks(content[off..])
    ensures var n := Len(|content| - off);
            var more := sent + [content[off..off + n]];
            |sent| < |all| && Begins(more, all) && all[|more|..] == Chunks(content[off + n..])
  {
    var n := Len(|content| - off);
    FirstChunk(content, off);
    MoveOver(all, sent, content[off..off + n], Chunks(content[off + n..]));
  }

  lemma OneMoreMark(offset: nat, sent: seq<Bytes>, c: Bytes)
    ensures |Join(sent + [c])| == |Join(sent)| + |c|
    ensures Marks(offset, sent + [c]) == Marks(offset, sent) + [offset + |Join(sent)| + |c|]
  {
    JoinAppend(sent, c);
    MarksAppend(offset, sent, c);
  }

  // ---------------------------------------------------------------- the receiver

  datatype Outcome = Waiting | Refused | Pulling | Completed | Cancelled | Closed

  /** `file` is the partial file, to which everything is appended. */
  datatype Download = Download(size: nat, file: Bytes, outcome: Outcome)

  /** The file event: pull from the end of the partial file, unless that is long enough already. */
  function Announce(partial: Bytes, size: nat, pulled: bool): Download {
    Download(size, partial, if size <= |partial| then Refused else if pulled then Pulling else Closed)
  }

  /** Data are appended until the transfer is closed, even after a cancel was asked for. */
  function Receive(r: Download, chunk: Bytes): Download {
    if r.outcome != Pulling && r.outcome != Cancelled then r
    else
      var file := r.file + chunk;
      Download(r.size, file, if |file| > r.size then Cancelled else if |file| == r.size then Completed else Pulling)
  }

  // ---------------------------------------------------------------- both ends and the stream between

  /** `sent` counts the bytes of `source` before the sender's position; `link` is what is under way. */
  datatype World = World(source: Bytes, sent: nat, link: seq<Bytes>, receiver: Download)

  datatype Event = SendChunk | Deliver

  predicate Enabled(w: World, e: Event) {
    match e
    case SendChunk => w.sent < |w.source|
    case Deliver => w.link != []
  }

  function Step(w: World, e: Event): World
    requires Enabled(w, e)
  {
    match e
    case SendChunk =>
      var n := Len(|w.source| - w.sent);
      w.(sent := w.sent + n, link := w.link + [w.source[w.sent..w.sent + n]])
    case Deliver => w.(link := w.link[1..], receiver := Receive(w.receiver, w.link[0]))
  }

  predicate Possible(w: World, es: seq<Event>)
    decreases es
  {
    es == [] || (Enabled(w, es[0]) && Possible(Step(w, es[0]), es[1..]))
  }

  function Run(w: World, es: seq<Event>): World
    requires Possible(w, es)
    decreases es
  {
    if es == [] then w else Run(Step(w, es[0]), es[1..])
  }

  /** The pull has arrived: the sender begins where the partial file ends. */
  function Begin(source: Bytes, partial: Bytes): World {
    World(source, |partial|, [], Announce(partial, |source|, true))
  }

  /** What has been written and what is under way is the partial file and the source behind it. */
  predicate Inv(w: World, partial: Bytes) {
    && |partial| < |w.source| && |partial| <= w.sent <= |w.source|
    && w.receiver.size == |w.source|
    && w.receiver.file + Join(w.link) == partial + w.source[|partial|..w.sent]
    && (forall c <- w.link :: 0 < |c| <= CHUNK)
    && w.receiver.outcome == (if |w.receiver.file| == |w.source| then Completed else Pulling)
  }

  lemma Widen(source: Bytes, lo: nat, mid: nat, hi: nat)
    requires lo <= mid <= hi <= |source|
    ensures source[lo..hi] == source[lo..mid] + source[mid..hi]
  {
  }

  lemma Assoc(a: Bytes, b: Bytes, c: Bytes)
    ensures a + (b + c) == (a + b) + c
  {
  }

  /** One more chunk on the link, cut off the source where the last one ended. */
  lemma OneMoreChunk(file: Bytes, link: seq<Bytes>, partial: Bytes, source: Bytes, sent: nat, end: nat)
    requires |partial| <= sent <= end <= |source| && file + Join(link) == partial + source[|partial|..sent]
    ensures file + Join(link + [source[sent..end]]) == partial + source[|partial|..end]
  {
    var c := source[sent..end];
    JoinAppend(link, c);
    Assoc(file, Join(link), c);
    Assoc(partial, source[|partial|..sent], c);
    Widen(source, |partial|, sent, end);
  }

  lemma InvSend(w: World, partial: Bytes)
    requires Inv(w, partial) && Enabled(w, SendChunk)
    ensures Inv(Step(w, SendChunk), partial)
  {
    OneMoreChunk(w.receiver.file, w.link, partial, w.source, w.sent, w.sent + Len(|w.source| - w.sent));
  }

  lemma InvDeliver(w: World, partial: Bytes)
    requires Inv(w, partial) && Enabled(w, Deliver)
    ensures Inv(Step(w, Deliver), partial)
  {
    var c := w.link[0];
    assert Join(w.link) == c + Join(w.link[1..]);
    Assoc(w.receiver.file, c, Join(w.link[1..]));
    assert |w.receiver.file + Join(w.link)| <= |w.source|;
    assert |w.receiver.file| < |w.source|;
  }

  lemma {:induction false} InvRun(w: World, partial: Bytes, es: seq<Event>)
    requires Inv(w, partial) && Possible(w, es)
    ensures Inv(Run(w, es), partial) && Run(w, es).source == w.source
    decreases es
  {
    if es != [] {
      if es[0] == SendChunk {
        InvSend(w, partial);
      } else {
        InvDeliver(w, partial);
      }
      InvRun(Step(w, es[0]), partial, es[1..]);
    }
  }

  lemma InvBegin(source: Bytes, partial: Bytes)
    requires |partial| < |source|
    ensures Inv(Begin(source, partial), partial)
  {
    assert partial + [] == partial && source[|partial|..|partial|] == [];
  }

  /**
   * Resumed from a prefix of the source: at every moment of every run the file is a prefix of the
   * source, and the receiver has completed iff the file equals the source; it never cancels.
   */
  lemma ResumedTransferIsExact(source: Bytes, partial: Bytes, es: seq<Event>)
    requires partial < source && Possible(Begin(source, partial), es)
    ensures var r := Run(Begin(source, partial), es).receiver;
            r.file <= source && (r.outcome == Completed <==> r.file == source) && r.outcome != Cancelled
  {
    InvBegin(source, partial);
    InvRun(Begin(source, partial), partial, es);
    var w := Run(Begin(source, partial), es);
    assert partial == source[..|partial|];
    assert partial + source[|partial|..w.sent] == source[..w.sent];
    assert w.receiver.file == (w.receiver.file + Join(w.link))[..|w.receiver.file|] == source[..w.sent][..|w.receiver.file|];
  }

  function Remaining(w: World): int {
    2 * (|w.source| - w.sent) + |w.link|
  }

  /** The transfer cannot go on for ever: the loop ends. */
  lemma StepsRunOut(w: World, e: Event)
    requires Enabled(w, e) && w.sent <= |w.source|
    ensures 0 <= Remaining(Step(w, e)) < Remaining(w)
  {
  }

  /** And it does not stop early: when nothing more can happen, the receiver has completed. */
  lemma StopsOnlyComplete(source: Bytes, partial: Bytes, es: seq<Event>)
    requires |partial| < |source| && Possible(Begin(source, partial), es)
    requires var w := Run(Begin(source, partial), es); !Enabled(w, SendChunk) && !Enabled(w, Deliver)
    ensures var r := Run(Begin(source, partial), es).receiver;
            r.outcome == Completed && r.file == partial + source[|partial|..]
  {
    InvBegin(source, partial);
    InvRun(Begin(source, partial), partial, es);
    var w := Run(Begin(source, partial), es);
    assert Join(w.link) == [] && w.receiver.file + [] == w.receiver.file;
    assert source[|partial|..w.sent] == source[|partial|..];
  }

  /** Nobody compares the partial file with the source: the result is right iff it was a prefix of it. */
  lemma ExactIffPrefix(source: Bytes, partial: Bytes, es: seq<Event>)
    requires |partial| < |source| && Possible(Begin(source, partial), es)
    requires Run(Begin(source, partial), es).receiver.outcome == Completed
    ensures Run(Begin(source, partial), es).receiver.file == source <==> partial <= source
  {
    InvBegin(source, partial);
    InvRun(Begin(source, partial), partial, es);
    var w := Run(Begin(source, partial), es);
    var file := w.receiver.file;
    assert file == (file + Join(w.link))[..|file|];
    assert file + Join(w.link) == file;
    assert file[..|partial|] == partial;
    if partial <= source {
      assert source == partial + source[|partial|..];
    }
  }

  /** A partial file that is long enough is refused, and then nothing more happens. */
  lemma RefusedStays(source: Bytes, partial: Bytes, es: seq<Event>)
    requires |partial| >= |source| && Possible(Begin(source, partial), es)
    ensures var r := Run(Begin(source, partial), es).receiver;
            r.outcome == Refused && r.file == partial
  {
  }

  /** A run that has come to its end has completed iff the partial file was shorter than the source; else it was refused. */
  lemma StoppedRunCompletesIff(source: Bytes, partial: Bytes, es: seq<Event>)
    requires Possible(Begin(source, partial), es)
    requires var w := Run(Begin(source, partial), es); !Enabled(w, SendChunk) && !Enabled(w, Deliver)
    ensures var r := Run(Begin(source, partial), es).receiver;
            && (r.outcome == Completed <==> |partial| < |source|)
            && (r.outcome == Refused <==> |partial| >= |source|)
            && r.file == partial + if |partial| < |source| then source[|partial|..] else []
  {
    if |partial| < |source| {
      StopsOnlyComplete(source, partial, es);
    } else {
      RefusedStays(source, partial, es);
      assert partial + [] == partial;
    }
  }

  // ---------------------------------------------------------------- whatever is sent

  function ReceiveAll(r: Download, chunks: seq<Bytes>): Download
    decreases |chunks|
  {
    if chunks == [] then r else Receive(ReceiveAll(r, chunks[..|chunks| - 1]), chunks[|chunks| - 1])
  }

  /** The first `n` chunks bring the file to exactly its size. */
  predicate Fills(partial: Bytes, size: nat, chunks: seq<Bytes>, n: nat)
    requires n <= |chunks|
  {
    |partial + Join(chunks[..n])| == size
  }

  lemma FillsBefore(partial: Bytes, size: nat, chunks: seq<Bytes>, c: Bytes, n: nat)
    requires n <= |chunks|
    ensures Fills(partial, size, chunks + [c], n) <==> Fills(partial, size, chunks, n)
  {
    assert (chunks + [c])[..n] == chunks[..n];
  }

  /**
   * Whatever chunks a sender sends to a receiver that has pulled: the transfer completes iff after some of
   * them the file has exactly its size, and is cancelled iff it never had and is longer in the end.  Until
   * it completes everything is appended.
   */
  lemma {:induction false} AnyChunks(partial: Bytes, size: nat, chunks: seq<Bytes>)
    requires |partial| < size
    ensures var r := ReceiveAll(Announce(partial, size, true), chunks);
            && (r.outcome == Completed <==> exists n :: 0 <= n <= |chunks| && Fills(partial, size, chunks, n))
            && (r.outcome == Completed ==> |r.file| == size && r.file <= partial + Join(chunks))
            && (r.outcome != Completed ==> r.file == partial + Join(chunks) && r.outcome == if |r.file| > size then Cancelled else Pulling)
            && (r.outcome == Pulling ==> |r.file| < size)
            && r.size == size
    decreases |chunks|
  {
    if chunks == [] {
      assert partial + [] == partial && chunks[..0] == [];
    } else {
      var before, c := chunks[..|chunks| - 1], chunks[|chunks| - 1];
      AnyChunks(partial, size, before);
      assert chunks == before + [c] && chunks[..|chunks|] == chunks;
      forall n | 0 <= n <= |before| ensures Fills(partial, size, chunks, n) <==> Fills(partial, size, before, n) {
        FillsBefore(partial, size, before, c, n);
      }
      JoinAppend(before, c);
      Assoc(partial, Join(before), c);
      assert Fills(partial, size, chunks, |chunks|) <==> |partial + Join(chunks)| == size;
    }
  }

  /** Without a pull nothing is received, whatever is sent: the file is refused, or the transfer closed. */
  lemma {:induction false} NothingWithoutPull(partial: Bytes, size: nat, pulled: bool, chunks: seq<Bytes>)
    requires size <= |partial| || !pulled
    ensures var r := ReceiveAll(Announce(partial, size, pulled), chunks);
            r.file == partial && r.outcome == if size <= |partial| then Refused else Closed
    decreases |chunks|
  {
    if chunks != [] {
      NothingWithoutPull(partial, size, pulled, chunks[..|chunks| - 1]);
    }
  }

  // ---------------------------------------------------------------- one attempt after another

  /** Each attempt begins with the partial file the last one left behind, wherever that was cut short. */
  function Attempts(source: Bytes, partial: Bytes, runs: seq<seq<Event>>): Option<Bytes>
    decreases |runs|
  {
    if runs == [] then Some(partial)
    else
      var n := |runs| - 1;
      var file := Attempts(source, partial, runs[..n]);
      if file == None || !Possible(Begin(source, file.value), runs[n]) then None
      else Some(Run(Begin(source, file.value), runs[n]).receiver.file)
  }

  /** However often the transfer is cut short and resumed, the file never stops being a prefix of the source. */
  lemma {:induction false} AttemptsAreExact(source: Bytes, partial: Bytes, runs: seq<seq<Event>>)
    requires partial <= source && Attempts(source, partial, runs).Some?
    ensures Attempts(source, partial, runs).value <= source
    decreases |runs|
  {
    if runs != [] {
      var n := |runs| - 1;
      AttemptsAreExact(source, partial, runs[..n]);
      var file := Attempts(source, partial, runs[..n]).value;
      if |file| < |source| {
        ResumedTransferIsExact(source, file, runs[n]);
      } else {
        RefusedStays(source, file, runs[n]);
      }
    }
  }

  /** A partial file that is long enough, but was not renamed, is left alone by every attempt. */
  lemma {:induction false} RefusedForEver(source: Bytes, partial: Bytes, runs: seq<seq<Event>>)
    requires |partial| >= |source| && Attempts(source, partial, runs).Some?
    ensures Attempts(source, partial, runs).value == partial
    ensures Begin(source, Attempts(source, partial, runs).value).receiver.outcome == Refused
    decreases |runs|
  {
    if runs != [] {
      var n := |runs| - 1;
      RefusedForEver(source, partial, runs[..n]);
      RefusedStays(source, partial, runs[n]);
    }
  }

  // ---------------------------------------------------------------- the sender's events and its loop

  /** Sending until nothing is left puts the chunks of the sending loop on the link, in order. */
  lemma {:induction false} SendingIsTheLoop(w: World)
    requires w.sent <= |w.source|
    ensures var chunks := Chunks(w.source[w.sent..]);
            var es := seq(|chunks|, i => SendChunk);
            Possible(w, es) && Run(w, es) == w.(sent := |w.source|, link := w.link + chunks)
    decreases |w.source| - w.sent
  {
    var chunks := Chunks(w.source[w.sent..]);
    if w.sent == |w.source| {
      assert w.link + [] == w.link;
    } else {
      var y := Step(w, SendChunk);
      var more := Chunks(w.source[y.sent..]);
      FirstChunk(w.source, w.sent);
      SendingIsTheLoop(y);
      assert seq(|chunks|, i => SendChunk)[1..] == seq(|more|, i => SendChunk);
      assert y.link + more == w.link + chunks;
    }
  }

  // ---------------------------------------------------------------- the code

  /** The sender's half of EasyFile; the file on disk is `content`, its size was taken when it was opened. */
  class FileSender {
    const content: Bytes
    const filesz: nat
    var offset: nat
    var position: nat

    predicate Valid() {
      filesz == |content|
    }

    constructor (content: Bytes)
      ensures Valid() && this.content == content && offset == 0
    {
      this.content, filesz, offset, position := content, |content|, 0, 0;
    }

    /** notify_pull_cb, up to the thread it starts. */
    method NotifyPull(from: nat) returns (ok: bool)
      modifies `offset
      ensures ok == (from < filesz) && offset == if ok then from else old(offset)
    {
      if from >= filesz {
        return false;
      }
      offset := from;
      ok := true;
    }

    /** fread of the next chunk. */
    method Read(len: nat) returns (buf: Bytes)
      requires position + len <= |content|
      modifies `position
      ensures position == old(position) + len && buf == content[old(position)..position]
    {
      buf := content[position..position + len];
      position := position + len;
    }

    /** sending_file_routine; the stream takes `accepted` chunks before it fails.  `progress` is what is reported. */
    method SendRoutine(accepted: nat) returns (sent: seq<Bytes>, progress: seq<nat>, ok: bool)
      requires Valid() && offset < filesz
      modifies `position
      ensures var all := Chunks(content[offset..]);
              ok == (|all| <= accepted) && sent == if ok then all else all[..accepted]
      ensures progress == Marks(offset, sent)
    {
      ghost var all := Chunks(content[offset..]);
      position := offset;
      var off := offset;
      sent, progress, ok := [], [], true;
      var more := true;
      while more
        invariant offset <= off <= filesz && position == off && offset == old(offset)
        invariant more <==> off < filesz
        invariant Begins(sent, all) && all[|sent|..] == Chunks(content[off..]) && |sent| <= accepted
        invariant off == offset + |Join(sent)| && progress == Marks(offset, sent)
        decreases filesz - off
      {
        var sendLen := filesz - off;
        if sendLen > CHUNK {
          sendLen := CHUNK;
        }
        var buf := Read(sendLen);
        NextChunk(content, off, sent, all);
        if |sent| == accepted {
          return sent, progress, false;
        }
        OneMoreMark(offset, sent, buf);
        sent := sent + [buf];
        off := off + sendLen;
        progress := progress + [off];
        more := off < filesz;
      }
      assert |all[|sent|..]| == 0;
    }
  }

  /** The receiver's half of EasyFile; `content` is the partial file, open for appending. */
  class FileReceiver {
    var content: Bytes
    var offset: nat
    var filesz: nat
    var outcome: Outcome

    predicate Valid()
      reads this
    {
      offset == |content|
    }

    function State(): Download
      reads this
    {
      Download(filesz, content, outcome)
    }

    constructor (partial: Bytes)
      ensures Valid() && content == partial && outcome == Waiting
    {
      content, offset, filesz, outcome := partial, |partial|, 0, Waiting;
    }

    /** notify_file_cb; `pulled` says whether the pull request can be sent. */
    method NotifyFile(size: nat, pulled: bool) returns (from: Option<nat>)
      requires Valid()
      modifies `filesz, `outcome
      ensures Valid() && State() == Announce(old(content), size, pulled)
      ensures from == if outcome == Pulling then Some(|content|) else None
    {
      filesz := size;
      from := None;
      if filesz <= offset {
        outcome := Refused;
        return;
      }
      if !pulled {
        outcome := Closed;
        return;
      }
      outcome := Pulling;
      from := Some(offset);
    }

    /** notify_data_cb, while the transfer is open. */
    method NotifyData(data: Bytes) returns (more: bool)
      requires Valid() && (outcome == Pulling || (outcome == Cancelled && offset > filesz))
      modifies `content, `offset, `outcome
      ensures Valid() && State() == Receive(old(State()), data) && more
    {
      content := content + data;
      offset := offset + |data|;
      if offset > filesz {
        outcome := Cancelled;
        return true;
      }
      if offset == filesz {
        outcome := Completed;
      }
      more := true;
    }
  }
}
