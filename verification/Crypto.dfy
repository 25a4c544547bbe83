/**
 * The buffers of the crypto handler (src/session/crypto_handler.c).  A box cipher works on a
 * message preceded by `zero` zero bytes and yields a sealed message preceded by `zero - mac` of
 * them; sealing adds `mac` bytes.  The cipher itself is a parameter.
 */
module CryptoHandler {
  import opened Wrappers
  import opened FlexBuffers

  datatype Cipher = Cipher(zero: nat, mac: nat, seal: Bytes -> Option<Bytes>, open: Bytes -> Option<Bytes>)

  predicate Sizes(c: Cipher) { c.mac <= c.zero <= PADDING && 0 < c.zero }

  /** Sealing adds `mac` bytes, and opening undoes it. */
  predicate Seals(c: Cipher, m: Bytes) {
    c.seal(m).Some? ==> |c.seal(m).value| == |m| + c.mac && c.open(c.seal(m).value) == Some(m)
  }

  /** Opening removes `mac` bytes. */
  predicate Opens(c: Cipher, s: Bytes) {
    c.open(s).Some? ==> |s| == |c.open(s).value| + c.mac
  }

  ghost predicate Sound(c: Cipher) {
    Sizes(c) && (forall m: Bytes :: Seals(c, m)) && forall s: Bytes :: Opens(c, s)
  }

  lemma DropZeros(n: nat, s: Bytes)
    ensures (Zeros(n) + s)[n..] == s && |Zeros(n) + s| == n + |s|
  {
  }

  /** What the cipher writes at the data pointer of `dest`: `pad` zeros and the result. */
  ghost predicate Wrote(dest: FlexBuffer, len: int, pad: nat, result: Bytes)
    reads dest, dest.buffer
  {
    && len == pad + |result| && dest.offset + len <= dest.buffer.Length
    && dest.buffer[dest.offset..dest.offset + len] == Zeros(pad) + result
  }

  method Put(dest: FlexBuffer, pad: nat, result: Bytes)
    requires dest.offset + pad + |result| <= dest.buffer.Length
    modifies dest.buffer
    ensures Wrote(dest, pad + |result|, pad, result)
  {
    var out := Zeros(pad) + result;
    forall i | 0 <= i < |out| {
      dest.buffer[dest.offset + i] := out[i];
    }
    assert dest.buffer[dest.offset..dest.offset + |out|] == out;
  }

  /** crypto_encrypt2: reads the padded message `m` of `src`, writes at the data pointer of `dest`. */
  method Encrypt(c: Cipher, src: FlexBuffer, dest: FlexBuffer, ghost m: Bytes) returns (len: int)
    requires Sizes(c) && Seals(c, m) && src.Valid() && src.size == c.zero + |m|
    requires src.buffer[src.offset + c.zero..src.offset + src.size] == m
    requires dest.offset + src.size <= dest.buffer.Length
    modifies dest.buffer
    ensures if c.seal(m) == None then len <= 0 else Wrote(dest, len, c.zero - c.mac, c.seal(m).value)
  {
    var sealed := c.seal(src.buffer[src.offset + c.zero..src.offset + src.size]);
    if sealed == None {
      return -1;
    }
    len := src.size;
    Put(dest, c.zero - c.mac, sealed.value);
  }

  /** crypto_decrypt2: reads the padded sealed message `s` of `src`. */
  method Decrypt(c: Cipher, src: FlexBuffer, dest: FlexBuffer, ghost s: Bytes) returns (len: int)
    requires Sizes(c) && Opens(c, s) && src.Valid() && src.size == c.zero - c.mac + |s|
    requires src.buffer[src.offset + (c.zero - c.mac)..src.offset + src.size] == s
    requires dest.offset + src.size <= dest.buffer.Length
    modifies dest.buffer
    ensures if c.open(s) == None then len <= 0 else Wrote(dest, len, c.zero, c.open(s).value)
  {
    var message := c.open(src.buffer[src.offset + (c.zero - c.mac)..src.offset + src.size]);
    if message == None {
      return -1;
    }
    len := src.size;
    Put(dest, c.zero, message.value);
  }

  /** The plain buffer grows backwards over the padding and shrinks again. */
  method Seal(c: Cipher, buf: FlexBuffer, cipher: FlexBuffer, ghost m: Bytes) returns (len: int)
    requires Sizes(c) && Seals(c, m) && buf.Valid() && buf.Content() == m && buf.offset >= c.zero
    requires buf != cipher && buf.buffer != cipher.buffer && cipher.offset + c.zero + buf.size <= cipher.buffer.Length
    modifies buf, cipher.buffer
    ensures buf.Valid() && buf.offset == old(buf.offset) && buf.size == old(buf.size) && buf.Content() == m
    ensures if c.seal(m) == None then len <= 0 else Wrote(cipher, len, c.zero - c.mac, c.seal(m).value)
  {
    var moved := buf.BackwardOffset(c.zero);
    assert moved == c.zero && buf.Content()[c.zero..] == buf.buffer[buf.offset + c.zero..buf.offset + buf.size] == m;
    len := Encrypt(c, buf, cipher, m);
    buf.ForwardOffset(c.zero);
  }

  method Open(c: Cipher, buf: FlexBuffer, plain: FlexBuffer, ghost s: Bytes) returns (len: int)
    requires Sizes(c) && Opens(c, s) && buf.Valid() && buf.Content() == s && buf.offset >= c.zero - c.mac
    requires buf != plain && buf.buffer != plain.buffer && plain.offset + (c.zero - c.mac) + buf.size <= plain.buffer.Length
    modifies buf, plain.buffer
    ensures buf.Valid() && buf.offset == old(buf.offset) && buf.size == old(buf.size) && buf.Content() == s
    ensures if c.open(s) == None then len <= 0 else Wrote(plain, len, c.zero, c.open(s).value)
  {
    var pad := c.zero - c.mac;
    var moved := buf.BackwardOffset(pad);
    assert moved == pad && buf.Content()[pad..] == buf.buffer[buf.offset + pad..buf.offset + buf.size] == s;
    ghost var padded := buf.Content();
    len := Decrypt(c, buf, plain, s);
    assert buf.Content() == padded;
    buf.ForwardOffset(pad);
  }

  /** The data written at `buf`'s pointer becomes its content, without the padding. */
  method Strip(buf: FlexBuffer, len: nat, pad: nat, ghost data: Bytes)
    requires Wrote(buf, len, pad, data)
    modifies buf
    ensures buf.Valid() && buf.Content() == data
    ensures buf.offset == old(buf.offset) + pad && buf.offset + buf.size == old(buf.offset) + len
  {
    DropZeros(pad, data);
    buf.SetSize(len);
    buf.ForwardOffset(pad);
  }

  /** Seals what `buf` holds; the sealed bytes end exactly where the new buffer ends. */
  method Write(c: Cipher, buf: FlexBuffer) returns (cipher: FlexBuffer?)
    requires Sound(c) && buf.Valid() && buf.offset >= c.zero
    modifies buf
    ensures buf.Valid() && buf.offset == old(buf.offset) && buf.size == old(buf.size)
    ensures cipher == null <==> c.seal(buf.Content()) == None
    ensures cipher != null ==>
              && fresh(cipher) && fresh(cipher.buffer) && cipher.Valid()
              && cipher.Content() == c.seal(buf.Content()).value
              && cipher.offset == PADDING - c.mac && cipher.offset + cipher.size == cipher.buffer.Length
  {
    cipher := new FlexBuffer(buf.size + PADDING, PADDING - c.zero);
    assert Seals(c, buf.Content());
    var len := Seal(c, buf, cipher, buf.Content());
    if len <= 0 {
      return null;
    }
    Strip(cipher, len, c.zero - c.mac, c.seal(buf.Content()).value);
  }

  /** Opens what `buf` holds; the message ends exactly where the new buffer ends. */
  method OnRxData(c: Cipher, buf: FlexBuffer) returns (plain: FlexBuffer?)
    requires Sound(c) && buf.Valid() && buf.offset >= c.zero - c.mac
    modifies buf
    ensures buf.Valid() && buf.offset == old(buf.offset) && buf.size == old(buf.size)
    ensures plain == null <==> c.open(buf.Content()) == None
    ensures plain != null ==>
              && fresh(plain) && fresh(plain.buffer) && plain.Valid()
              && plain.Content() == c.open(buf.Content()).value
              && plain.offset == PADDING + c.mac && plain.offset + plain.size == plain.buffer.Length
  {
    plain := new FlexBuffer(buf.size + PADDING, PADDING - (c.zero - c.mac));
    assert Opens(c, buf.Content());
    var len := Open(c, buf, plain, buf.Content());
    if len <= 0 {
      return null;
    }
    Strip(plain, len, c.zero, c.open(buf.Content()).value);
  }

  /** Whatever is written comes back on the other side, with headroom for the next handler. */
  method Loopback(c: Cipher, buf: FlexBuffer) returns (plain: FlexBuffer?)
    requires Sound(c) && buf.Valid() && buf.offset >= c.zero
    modifies buf
    ensures buf.Valid() && buf.offset == old(buf.offset) && buf.size == old(buf.size)
    ensures plain == null <==> c.seal(buf.Content()) == None
    ensures plain != null ==> plain.Valid() && plain.Content() == buf.Content() && plain.offset >= PADDING
  {
    assert Seals(c, buf.Content());
    var cipher := Write(c, buf);
    if cipher == null {
      return null;
    }
    plain := OnRxData(c, cipher);
  }
}
