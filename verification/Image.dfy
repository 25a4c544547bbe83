/**
 * The data file of src/carrier/ela_carrier.c: a header of 256 bytes, then the DHT data and the
 * friend labels, each filled up with zeros.  The hash function is a parameter.
 */
module Image {
  import opened Wrappers

  const MAGIC: nat := 0x0E0C_0D0A
  const REVISION: nat := 2
  const MAX_SECTION_SIZE: nat := 16 * 1024 * 1024
  const HEADER: nat := 256
  const HASH: nat := 32

  type Hash = Bytes -> Bytes

  ghost predicate Hashes(h: Hash) {
    forall s: Bytes :: |h(s)| == HASH
  }

  // ---------------------------------------------------------------- sizes

  /** ROUND256 */
  function Round256(s: nat): nat { ((s + 64) / 256 + 1) * 256 }

  /** A section always keeps at least 65 bytes of zeros behind its data. */
  lemma Round256Bounds(s: nat, t: nat)
    ensures s + 65 <= Round256(s) <= s + 320 && Round256(s) % 256 == 0
    ensures s <= t ==> Round256(s) <= Round256(t)
  {
    var q := (s + 64) / 256;
    assert 256 * q <= s + 64 < 256 * q + 256;
    if s <= t {
      assert (s + 64) / 256 <= (t + 64) / 256;
    }
  }

  // ---------------------------------------------------------------- numbers in network order

  function U32(n: nat): (s: Bytes)
    requires n < TWO32
    ensures |s| == 4
  {
    [n / 0x100_0000, n / 0x1_0000 % 256, n / 256 % 256, n % 256]
  }

  function Number(s: Bytes, i: nat): (n: nat)
    requires i + 4 <= |s|
    ensures n < TWO32
  {
    var a: int, b: int, c: int := s[i], s[i + 1], s[i + 2];
    a * 0x100_0000 + b * 0x1_0000 + c * 256 + s[i + 3]
  }

  lemma LastDigit(q: nat, d: nat)
    requires d < 256
    ensures (256 * q + d) / 256 == q && (256 * q + d) % 256 == d
  {
  }

  /** The four bytes of a number. */
  lemma Digits(a: nat, b: nat, c: nat, d: nat)
    requires a < 256 && b < 256 && c < 256 && d < 256
    ensures var n := a * 0x100_0000 + b * 0x1_0000 + c * 256 + d;
            n < TWO32 && U32(n) == [a, b, c, d]
  {
    var r := 256 * a + b;
    var q := 256 * r + c;
    var n := 256 * q + d;
    LastDigit(a, b);
    LastDigit(r, c);
    LastDigit(q, d);
    assert n / 0x1_0000 == n / 256 / 256 && n / 0x100_0000 == n / 256 / 256 / 256;
  }

  lemma NumberOfU32(n: nat)
    requires n < TWO32
    ensures Number(U32(n), 0) == n
  {
    var q, d := n / 256, n % 256;
    var r, c := q / 256, q % 256;
    var a, b := r / 256, r % 256;
    Digits(a, b, c, d);
    assert n == a * 0x100_0000 + b * 0x1_0000 + c * 256 + d;
  }

  lemma NumberAt(s: Bytes, i: nat, n: nat)
    requires n < TWO32 && i + 4 <= |s| && s[i..i + 4] == U32(n)
    ensures Number(s, i) == n
  {
    NumberOfU32(n);
    var w := s[i..i + 4];
    assert s[i] == w[0] && s[i + 1] == w[1] && s[i + 2] == w[2] && s[i + 3] == w[3];
  }

  // ---------------------------------------------------------------- storing and loading

  function Section(s: Bytes): (r: Bytes)
    ensures |r| == Round256(|s|)
  {
    Round256Bounds(|s|, |s|);
    s + Zeros(Round256(|s|) - |s|)
  }

  datatype Saved = Saved(dht: Bytes, extra: Bytes)

  function Body(v: Saved): Bytes { Section(v.dht) + Section(v.extra) }

  predicate Storable(v: Saved) { |v.dht| < TWO32 && |v.extra| < TWO32 }

  function Header(h: Hash, v: Saved): Bytes
    requires Storable(v)
  {
    U32(MAGIC) + U32(REVISION) + U32(|v.dht|) + U32(|v.extra|) + h(Body(v)) + Zeros(HEADER - 16 - HASH)
  }

  /** What store_persistence_data writes. */
  function ImageOf(h: Hash, v: Saved): Bytes
    requires Storable(v)
  {
    Header(h, v) + Body(v)
  }

  /** _load_persistence_data_i */
  function Load(h: Hash, file: Bytes): Option<Saved> {
    if |file| < HEADER then None
    else if Number(file, 0) != MAGIC then None
    else if Number(file, 4) != REVISION then None
    else
      var dhtLen, extraLen := Number(file, 8), Number(file, 12);
      if dhtLen > MAX_SECTION_SIZE || extraLen > MAX_SECTION_SIZE then None
      else if |file| != HEADER + Round256(dhtLen) + Round256(extraLen) then None
      else if file[16..16 + HASH] != h(file[HEADER..]) then None
      else
        Round256Bounds(dhtLen, dhtLen);
        Round256Bounds(extraLen, extraLen);
        var extraPos := HEADER + Round256(dhtLen);
        Some(Saved(file[HEADER..HEADER + dhtLen], file[extraPos..extraPos + extraLen]))
  }

  lemma Fields(s: Bytes, a: Bytes, b: Bytes, c: Bytes, d: Bytes, e: Bytes, z: Bytes)
    requires |a| == |b| == |c| == |d| == 4 && |e| == HASH && s == a + b + c + d + e + z
    ensures s[0..4] == a && s[4..8] == b && s[8..12] == c && s[12..16] == d && s[16..16 + HASH] == e
  {
  }

  lemma Prefix(file: Bytes, n: nat, i: nat, j: nat)
    requires i <= j <= n <= |file|
    ensures file[i..j] == file[..n][i..j]
  {
  }

  lemma HeaderFields(h: Hash, v: Saved, file: Bytes)
    requires Hashes(h) && Storable(v) && |file| >= HEADER && file[..HEADER] == Header(h, v)
    ensures |Header(h, v)| == HEADER
    ensures Number(file, 0) == MAGIC && Number(file, 4) == REVISION
    ensures Number(file, 8) == |v.dht| && Number(file, 12) == |v.extra|
    ensures file[16..16 + HASH] == h(Body(v))
  {
    Fields(file[..HEADER], U32(MAGIC), U32(REVISION), U32(|v.dht|), U32(|v.extra|), h(Body(v)), Zeros(HEADER - 16 - HASH));
    Prefix(file, HEADER, 0, 4);
    Prefix(file, HEADER, 4, 8);
    Prefix(file, HEADER, 8, 12);
    Prefix(file, HEADER, 12, 16);
    Prefix(file, HEADER, 16, 16 + HASH);
    NumberAt(file, 0, MAGIC);
    NumberAt(file, 4, REVISION);
    NumberAt(file, 8, |v.dht|);
    NumberAt(file, 12, |v.extra|);
  }

  predicate Loadable(v: Saved) { |v.dht| <= MAX_SECTION_SIZE && |v.extra| <= MAX_SECTION_SIZE }

  lemma HeaderLength(h: Hash, v: Saved)
    requires Hashes(h) && Storable(v)
    ensures |Header(h, v)| == HEADER
  {
  }

  /** Where the sections lie in the file. */
  lemma SectionsAt(head: Bytes, v: Saved)
    requires |head| == HEADER
    ensures var file, p := head + Body(v), HEADER + Round256(|v.dht|);
            && |file| == p + Round256(|v.extra|)
            && HEADER + |v.dht| <= p && file[HEADER..HEADER + |v.dht|] == v.dht
            && p + |v.extra| <= |file| && file[p..p + |v.extra|] == v.extra
  {
    var body, p := Body(v), Round256(|v.dht|);
    assert body[..|v.dht|] == v.dht;
    assert body[p..p + |v.extra|] == v.extra;
  }

  /** What is stored loads back exactly when neither section is above 16 MiB. */
  lemma LoadsBackIff(h: Hash, v: Saved)
    requires Hashes(h) && Storable(v)
    ensures Load(h, ImageOf(h, v)) == if Loadable(v) then Some(v) else None
  {
    var file := ImageOf(h, v);
    assert |Header(h, v)| == HEADER;
    assert file[..HEADER] == Header(h, v) && file[HEADER..] == Body(v);
    HeaderFields(h, v, file);
    SectionsAt(Header(h, v), v);
  }

  /** A journal that was cut short is never taken for a whole one. */
  lemma PrefixRejected(h: Hash, v: Saved, n: nat)
    requires Hashes(h) && Storable(v) && n < |ImageOf(h, v)|
    ensures Load(h, ImageOf(h, v)[..n]) == None
  {
    var file := ImageOf(h, v)[..n];
    assert |Header(h, v)| == HEADER;
    if n >= HEADER {
      assert file[..HEADER] == Header(h, v);
      HeaderFields(h, v, file);
    }
  }

  // ---------------------------------------------------------------- which files are accepted

  /** The four bytes at `i` are a number in network order. */
  predicate Spells(s: Bytes, i: nat, n: nat)
    requires i + 4 <= |s|
  {
    var a: int, b: int, c: int, d: int := s[i], s[i + 1], s[i + 2], s[i + 3];
    0x100_0000 * a + 0x1_0000 * b + 0x100 * c + d == n
  }

  /** The file is one of `v`, byte by byte: magic, revision, lengths, the hash of all that follows, and the sections. */
  predicate Genuine(h: Hash, file: Bytes, v: Saved) {
    && |v.dht| <= 0x100_0000 && |v.extra| <= 0x100_0000
    && |file| == 256 + Round256(|v.dht|) + Round256(|v.extra|)
    && file[0..4] == [0x0E, 0x0C, 0x0D, 0x0A] && file[4..8] == [0, 0, 0, 2]
    && Spells(file, 8, |v.dht|) && Spells(file, 12, |v.extra|)
    && file[16..48] == h(file[256..])
    && HasSections(file, v)
  }

  predicate HasSections(file: Bytes, v: Saved) {
    var p := 256 + Round256(|v.dht|);
    && 256 + |v.dht| <= |file| && file[256..256 + |v.dht|] == v.dht
    && p + |v.extra| <= |file| && file[p..p + |v.extra|] == v.extra
  }

  lemma NumberIff(s: Bytes, i: nat, n: nat)
    requires i + 4 <= |s| && n < TWO32
    ensures Number(s, i) == n <==> s[i..i + 4] == U32(n)
  {
    Digits(s[i], s[i + 1], s[i + 2], s[i + 3]);
    assert s[i..i + 4] == [s[i], s[i + 1], s[i + 2], s[i + 3]];
    NumberOfU32(n);
    if s[i..i + 4] == U32(n) {
      NumberAt(s, i, n);
    }
  }

  lemma MagicIff(file: Bytes)
    requires |file| >= 8
    ensures Number(file, 0) == MAGIC <==> file[0..4] == [0x0E, 0x0C, 0x0D, 0x0A]
    ensures Number(file, 4) == REVISION <==> file[4..8] == [0, 0, 0, 2]
  {
    NumberIff(file, 0, MAGIC);
    NumberIff(file, 4, REVISION);
    Digits(0x0E, 0x0C, 0x0D, 0x0A);
    Digits(0, 0, 0, 2);
  }

  /** Any file at all: it is loaded, and as `v`, iff it is one of `v`. */
  lemma LoadedIff(h: Hash, file: Bytes, v: Saved)
    ensures Load(h, file) == Some(v) <==> Genuine(h, file, v)
  {
    Round256Bounds(|v.dht|, |v.dht|);
    Round256Bounds(|v.extra|, |v.extra|);
    if |file| >= HEADER {
      MagicIff(file);
    }
  }

  /** A file with the header and the size of an image, whose body has another hash, is refused. */
  lemma DamagedIsRefused(h: Hash, v: Saved, file: Bytes)
    requires Hashes(h) && Storable(v) && |file| == |ImageOf(h, v)| && file[..HEADER] == Header(h, v)
    requires h(file[HEADER..]) != h(Body(v))
    ensures Load(h, file) == None
  {
    HeaderFields(h, v, file);
  }

  /** So is one with another magic number or revision. */
  lemma ForeignIsRefused(h: Hash, file: Bytes)
    requires |file| >= 8 && (file[0..4] != [0x0E, 0x0C, 0x0D, 0x0A] || file[4..8] != [0, 0, 0, 2])
    ensures Load(h, file) == None
  {
    MagicIff(file);
  }
}
