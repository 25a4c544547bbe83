/**
 * Reading friend labels back from the label area of the data file (src/carrier/ela_carrier.c:776-803).
 */
module LabelArea {
  import opened Wrappers
  import opened Image
  import opened Labels

  type Table = map<nat, Bytes>  // labels of the friends in the friend table

  predicate Terminated(s: Bytes, at: nat) {
    exists i :: at <= i < |s| && s[i] == 0
  }

  /** The length of the string at `at`. */
  function StringLen(s: Bytes, at: nat): (n: nat)
    requires Terminated(s, at)
    ensures at + n < |s| && s[at + n] == 0 && forall i :: at <= i < at + n ==> s[i] != 0
    decreases |s| - at
  {
    if s[at] == 0 then 0 else 1 + StringLen(s, at + 1)
  }

  lemma StringLenIs(s: Bytes, at: nat, n: nat)
    requires at + n < |s| && s[at + n] == 0 && forall i :: at <= i < at + n ==> s[i] != 0
    ensures Terminated(s, at) && StringLen(s, at) == n
  {
    assert StringLen(s, at) >= n;
  }

  /** strlen */
  method StrLen(s: Bytes, at: nat) returns (n: nat)
    requires Terminated(s, at)
    ensures n == StringLen(s, at)
  {
    n := 0;
    while s[at + n] != 0
      invariant n <= StringLen(s, at)
      decreases StringLen(s, at) - n
    {
      n := n + 1;
    }
  }

  function Relabel(table: Table, number: nat, text: Bytes): Table {
    if number in table then table[number := text] else table
  }

  /** What reading the entries of `fs` does to the labels: friends that are gone are skipped. */
  function Restore(table: Table, fs: seq<Friend>): Table
    decreases fs
  {
    if fs == [] then table
    else
      var f := fs[0];
      Restore(if f.text != [] then Relabel(table, f.number, f.text) else table, fs[1..])
  }

  lemma Sub(area: Bytes, pos: nat, end: nat, i: nat, j: nat)
    requires i <= j && pos + j <= end <= |area|
    ensures area[pos..end][i..j] == area[pos + i..pos + j]
  {
    var part := area[pos..end];
    assert forall k :: i <= k < j ==> part[k] == area[pos + k];
  }

  lemma FrontAndBack(a: Bytes, b: Bytes)
    ensures (a + b)[0..|a|] == a && (a + b)[|a|..|a| + |b|] == b
  {
  }

  /** Three parts in a row. */
  lemma Pieces(area: Bytes, pos: nat, end: nat, a: Bytes, b: Bytes, rest: Bytes)
    requires pos <= end <= |area| && area[pos..end] == (a + b) + rest
    ensures pos + |a| + |b| <= end
    ensures area[pos..pos + |a|] == a && area[pos + |a|..pos + |a| + |b|] == b && area[pos + |a| + |b|..end] == rest
  {
    var s, k := area[pos..end], |a| + |b|;
    Sub(area, pos, end, 0, |a|);
    Sub(area, pos, end, |a|, k);
    Sub(area, pos, end, k, |s|);
    assert s[0..|a|] == a && s[|a|..k] == b && s[k..|s|] == rest;
  }

  /** The first entry of an area that starts at `pos`. */
  lemma FirstEntry(area: Bytes, pos: nat, len: nat, fs: seq<Friend>)
    requires AllWellFormed(fs) && fs != [] && fs[0].text != []
    requires pos <= len <= |area| && area[pos..len] == Serialize(fs)
    ensures pos + 4 + |fs[0].text| + 1 <= len
    ensures area[pos..pos + 4] == U32(fs[0].number)
    ensures area[pos + 4..pos + 4 + |fs[0].text| + 1] == fs[0].text + [0]
    ensures area[pos + 4 + |fs[0].text| + 1..len] == Serialize(fs[1..])
  {
    var f := fs[0];
    assert Entry(f) == U32(f.number) + (f.text + [0]);
    Pieces(area, pos, len, U32(f.number), f.text + [0], Serialize(fs[1..]));
  }

  lemma TextAt(area: Bytes, at: nat, t: Bytes)
    requires at + |t| + 1 <= |area| && area[at..at + |t| + 1] == t + [0] && 0 !in t
    ensures Terminated(area, at) && StringLen(area, at) == |t| && area[at..at + |t|] == t
  {
    Sub(area, at, at + |t| + 1, 0, |t|);
    FrontAndBack(t, [0]);
    assert area[at + |t|] == area[at..at + |t| + 1][|t|];
    forall i | at <= i < at + |t| ensures area[i] != 0 {
      assert area[i] == t[i - at];
    }
    StringLenIs(area, at, |t|);
  }

  // ---------------------------------------------------------------- reading any area

  /** A section of the data file: `len` bytes of any kind, and the zeros that fill it up. */
  predicate Padded(area: Bytes, len: nat) {
    len + 10 <= |area| && forall i :: len <= i < |area| ==> area[i] == 0
  }

  /** The string of an entry that begins in the area ends in the padding at the latest. */
  lemma EntryEnds(area: Bytes, pos: nat, len: nat)
    requires Padded(area, len) && pos <= len + 4
    ensures Terminated(area, pos + 4) && pos + 4 + StringLen(area, pos + 4) <= if pos < len then len + 3 else pos + 4
  {
    var last := if pos + 4 < len then len else pos + 4;
    assert area[last] == 0;
  }

  /**
   * What reading does to the labels, and where it ends.  It ends at `len`, or behind the first entry
   * without a label; an entry that runs over `len` is followed by one without a label in the padding.
   */
  function Walk(table: Table, area: Bytes, pos: nat, len: nat): (Table, nat)
    requires Padded(area, len) && pos <= len + 4
    decreases |area| - pos
  {
    if pos == len then (table, pos)
    else
      EntryEnds(area, pos, len);
      var number, n := Number(area, pos), StringLen(area, pos + 4);
      if n == 0 then (table, pos + 5)
      else Walk(Relabel(table, number, area[pos + 4..pos + 4 + n]), area, pos + 4 + n + 1, len)
  }

  /** One entry: friend number, then a string up to its zero byte. */
  method ReadEntry(area: Bytes, pos: nat) returns (number: nat, text: Bytes)
    requires pos + 4 <= |area| && Terminated(area, pos + 4)
    ensures number == Number(area, pos)
    ensures |text| == StringLen(area, pos + 4) && text == area[pos + 4..pos + 4 + |text|]
  {
    number := Number(area, pos);
    var n := StrLen(area, pos + 4);
    text := area[pos + 4..pos + 4 + n];
  }

  /** One round of the loop: the entry at `pos` labels its friend, unless its label is empty. */
  method ApplyEntry(table: Table, area: Bytes, pos: nat, len: nat) returns (after: Table, n: nat)
    requires Padded(area, len) && pos <= len + 4 && pos != len
    ensures Terminated(area, pos + 4) && n == StringLen(area, pos + 4) && pos + 4 + n < |area|
    ensures n == 0 ==> Walk(table, area, pos, len) == (table, pos + 5)
    ensures n > 0 ==> pos + n + 5 <= len + 4 && Walk(table, area, pos, len) == Walk(after, area, pos + n + 5, len)
  {
    EntryEnds(area, pos, len);
    var number, text := ReadEntry(area, pos);
    n := |text|;
    after := if n > 0 && number in table then table[number := text] else table;
  }

  /** apply_extra_data, for any area: it never reads behind the padding.  `left` wraps around, as size_t does. */
  method ApplyExtra(friends: Table, area: Bytes, len: nat) returns (table: Table, consumed: nat)
    requires Padded(area, len) && len < SIZE_T
    ensures (table, consumed) == Walk(friends, area, 0, len) && consumed <= |area|
  {
    table := friends;
    var pos, left: nat := 0, len;
    ghost var goal := Walk(friends, area, pos, len);
    while left > 0
      invariant pos <= len + 4 && left == if pos <= len then len - pos else SIZE_T - (pos - len)
      invariant Walk(table, area, pos, len) == goal
      decreases |area| - pos
    {
      var after, n := ApplyEntry(table, area, pos, len);
      if n == 0 {
        return table, pos + 5;
      }
      table := after;
      pos := pos + n + 5;
      left := if left >= n + 5 then left - (n + 5) else SIZE_T + left - (n + 5);
    }
    consumed := pos;
  }

  /** From `pos` to `len` the area reads as the labelled friends among `fs`. */
  predicate Holds(area: Bytes, pos: nat, len: nat, fs: seq<Friend>)
    decreases fs
  {
    if fs == [] then pos == len
    else if fs[0].text == [] then Holds(area, pos, len, fs[1..])
    else
      var end := pos + 4 + |fs[0].text|;
      && end < len <= |area| && Number(area, pos) == fs[0].number
      && Terminated(area, pos + 4) && StringLen(area, pos + 4) == |fs[0].text| && area[pos + 4..end] == fs[0].text
      && Holds(area, end + 1, len, fs[1..])
  }

  /** The first friend's entry, if that has a label. */
  lemma HoldsFirst(area: Bytes, pos: nat, len: nat, fs: seq<Friend>)
    requires pos <= len <= |area| && fs != [] && AllWellFormed(fs) && fs[0].text != [] && area[pos..len] == Serialize(fs)
    ensures var end := pos + 4 + |fs[0].text|;
            && end + 1 <= len && area[end + 1..len] == Serialize(fs[1..])
            && (Holds(area, end + 1, len, fs[1..]) ==> Holds(area, pos, len, fs))
  {
    FirstEntry(area, pos, len, fs);
    NumberAt(area, pos, fs[0].number);
    TextAt(area, pos + 4, fs[0].text);
  }

  lemma Unlabelled(fs: seq<Friend>)
    requires AllWellFormed(fs) && fs != [] && fs[0].text == []
    ensures Serialize(fs) == Serialize(fs[1..])
  {
  }

  lemma {:induction false} SerializedHolds(area: Bytes, pos: nat, len: nat, fs: seq<Friend>)
    requires pos <= len <= |area| && AllWellFormed(fs) && area[pos..len] == Serialize(fs)
    ensures Holds(area, pos, len, fs)
    decreases fs
  {
    if fs != [] {
      if fs[0].text == [] {
        Unlabelled(fs);
        SerializedHolds(area, pos, len, fs[1..]);
      } else {
        HoldsFirst(area, pos, len, fs);
        SerializedHolds(area, pos + 4 + |fs[0].text| + 1, len, fs[1..]);
      }
    }
  }

  /** The entry of a friend with a label is read, and labels him; reading goes on behind it. */
  lemma WalkOne(table: Table, area: Bytes, pos: nat, stop: nat, len: nat, fs: seq<Friend>) returns (after: Table, next: nat)
    requires Padded(area, len) && pos <= stop <= len && fs != [] && fs[0].text != [] && Holds(area, pos, stop, fs)
    ensures pos <= next <= stop && Holds(area, next, stop, fs[1..]) && after == Relabel(table, fs[0].number, fs[0].text)
    ensures Walk(table, area, pos, len) == Walk(after, area, next, len)
  {
    after, next := Relabel(table, fs[0].number, fs[0].text), pos + 4 + |fs[0].text| + 1;
  }

  /** Reading the entries of `fs`, from `pos` to `stop`, restores their labels. */
  lemma {:induction false} WalkHeld(table: Table, area: Bytes, pos: nat, stop: nat, len: nat, fs: seq<Friend>)
    requires Padded(area, len) && pos <= stop <= len && Holds(area, pos, stop, fs)
    ensures Walk(table, area, pos, len) == Walk(Restore(table, fs), area, stop, len)
    decreases fs
  {
    if fs != [] {
      if fs[0].text == [] {
        WalkHeld(table, area, pos, stop, len, fs[1..]);
      } else {
        var after, next := WalkOne(table, area, pos, stop, len, fs);
        WalkHeld(after, area, next, stop, len, fs[1..]);
      }
    }
  }

  /** An entry without label ends the reading: what came before it counts, what comes after does not. */
  lemma EmptyLabelEnds(table: Table, area: Bytes, pos: nat, stop: nat, len: nat, fs: seq<Friend>)
    requires Padded(area, len) && pos <= stop < len && Holds(area, pos, stop, fs) && area[stop + 4] == 0
    ensures Walk(table, area, pos, len) == (Restore(table, fs), stop + 5)
  {
    WalkHeld(table, area, pos, stop, len, fs);
    StringLenIs(area, stop + 4, 0);
  }

  /** So does one that runs over the end of the area: the padding behind it is an entry without label. */
  lemma OverrunEnds(table: Table, area: Bytes, pos: nat, len: nat)
    requires Padded(area, len) && len < pos <= len + 4
    ensures Walk(table, area, pos, len) == (table, pos + 5)
  {
    StringLenIs(area, pos + 4, 0);
  }

  /** An area that holds the entries of `fs` is read to its end and no further, and restores their labels. */
  lemma WalkRestores(table: Table, area: Bytes, len: nat, fs: seq<Friend>)
    requires Padded(area, len) && AllWellFormed(fs) && area[..len] == Serialize(fs)
    ensures Walk(table, area, 0, len) == (Restore(table, fs), len)
  {
    assert area[0..len] == area[..len];
    SerializedHolds(area, 0, len, fs);
    WalkHeld(table, area, 0, len, len, fs);
  }

  // ---------------------------------------------------------------- round trip

  lemma SectionIsPadded(s: Bytes)
    ensures Section(s)[..|s|] == s && Padded(Section(s), |s|)
  {
    Round256Bounds(|s|, |s|);
  }

  lemma LastSection(head: Bytes, a: Bytes, b: Bytes)
    ensures (head + (a + b))[|head| + |a|..] == b
  {
  }

  lemma LabelsInFile(h: Hash, v: Saved)
    requires Hashes(h) && Storable(v)
    ensures var file, p := ImageOf(h, v), HEADER + Round256(|v.dht|);
            p <= |file| && file[p..] == Section(v.extra)
  {
    HeaderLength(h, v);
    LastSection(Header(h, v), Section(v.dht), Section(v.extra));
  }

  /**
   * What is stored of the DHT and of the friends' labels is what loading the file gives back, if it can
   * be loaded at all; and the labels lie in an area that reading restores them from (WalkRestores).
   */
  lemma FileRoundTrip(h: Hash, dht: Bytes, fs: seq<Friend>)
    requires Hashes(h) && AllWellFormed(fs) && Loadable(Saved(dht, Serialize(fs)))
    ensures var labels := Serialize(fs);
            var file, p := ImageOf(h, Saved(dht, labels)), HEADER + Round256(|dht|);
            && Load(h, file) == Some(Saved(dht, labels))
            && p <= |file| && Padded(file[p..], |labels|) && file[p..][..|labels|] == labels
  {
    var labels := Serialize(fs);
    LoadsBackIff(h, Saved(dht, labels));
    LabelsInFile(h, Saved(dht, labels));
    SectionIsPadded(labels);
  }

  ghost predicate Distinct(fs: seq<Friend>) {
    forall i, j :: 0 <= i < j < |fs| ==> fs[i].number != fs[j].number
  }

  /** Every labelled friend that is still there gets its label; nothing else changes. */
  lemma {:induction false} RestoreMeans(table: Table, fs: seq<Friend>)
    requires Distinct(fs)
    ensures Restore(table, fs).Keys == table.Keys
    ensures forall i :: 0 <= i < |fs| && fs[i].number in table ==>
              Restore(table, fs)[fs[i].number] == if fs[i].text != [] then fs[i].text else table[fs[i].number]
    ensures forall n :: n in table && (forall i :: 0 <= i < |fs| ==> fs[i].number != n) ==> Restore(table, fs)[n] == table[n]
    decreases fs
  {
    if fs != [] {
      var f := fs[0];
      var next := if f.text != [] then Relabel(table, f.number, f.text) else table;
      RestoreMeans(next, fs[1..]);
      assert forall i :: 0 < i < |fs| ==> fs[1..][i - 1] == fs[i];
      assert forall i :: 0 <= i < |fs| - 1 ==> fs[1..][i].number != f.number;
    }
  }

  /** Saving the labels and loading them into fresh friends restores every one of them. */
  method SaveAndLoad(fs: seq<Friend>, friends: Table) returns (table: Table)
    requires AllWellFormed(fs) && Distinct(fs) && |Serialize(fs)| < SIZE_T
    requires forall n :: n in friends <==> exists i :: 0 <= i < |fs| && fs[i].number == n
    requires forall n :: n in friends ==> friends[n] == []
    ensures table.Keys == friends.Keys
    ensures forall i :: 0 <= i < |fs| ==> fs[i].number in table && table[fs[i].number] == fs[i].text
  {
    var len := ExtraSize(fs);
    Round256Bounds(len, len);
    var buf := new byte[Round256(len)](_ => 0);
    NothingLeftOut(fs, buf.Length);
    WriteExtra(fs, buf, 0, buf.Length);
    assert buf[..][..len] == Serialize(fs);
    var consumed;
    table, consumed := ApplyExtra(friends, buf[..], len);
    WalkRestores(friends, buf[..], len, fs);
    RestoreMeans(friends, fs);
  }
}
