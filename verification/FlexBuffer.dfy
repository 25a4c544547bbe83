/** The buffer of src/session/flex_buffer.h: data between `offset` and `offset + size`. */
module FlexBuffers {
  import opened Wrappers

  const PADDING := 128
  const MAX_USER_DATA := 2048
  const MAX_LEN := PADDING * 2 + MAX_USER_DATA

  class FlexBuffer {
    const buffer: array<byte>
    var offset: nat
    var size: nat

    constructor (capacity: nat, offset: nat)
      requires offset <= capacity
      ensures fresh(buffer) && buffer.Length == capacity && this.offset == offset && size == 0 && Valid()
    {
      buffer := new byte[capacity](_ => 0);
      this.offset, size := offset, 0;
    }

    ghost predicate Valid()
      reads this
    {
      offset + size <= buffer.Length
    }

    ghost function Content(): (s: seq<byte>)
      requires Valid()
      reads this, buffer
      ensures |s| == size
    {
      buffer[offset..offset + size]
    }

    function Available(): nat
      requires Valid()
      reads this
    {
      buffer.Length - offset - size
    }

    method Reset(offset: nat)
      requires offset <= buffer.Length
      modifies this
      ensures Valid() && this.offset == offset && size == 0
    {
      this.offset, size := offset, 0;
    }

    method SetSize(size: nat)
      requires offset + size <= buffer.Length
      modifies this`size
      ensures Valid() && this.size == size
    {
      this.size := size;
    }

    /** Drops the first bytes of the data; a size that would become negative wraps around, as size_t does. */
    method ForwardOffset(bytes: nat)
      requires offset + bytes <= buffer.Length
      modifies this`offset, this`size
      ensures offset == old(offset) + bytes
      ensures size == if bytes <= old(size) then old(size) - bytes else (old(size) - bytes) % SIZE_T
      ensures old(Valid()) && bytes <= old(size) ==> Valid() && Content() == old(Content())[bytes..]
    {
      offset := offset + bytes;
      size := if bytes <= size then size - bytes else (size - bytes) % SIZE_T;
    }

    /** Extends the data backwards into the space before it. */
    method BackwardOffset(bytes: nat) returns (moved: nat)
      requires Valid()
      modifies this
      ensures moved == Min(bytes, old(offset))
      ensures Valid() && offset == old(offset) - moved && size == old(size) + moved
      ensures Content()[moved..] == old(Content())
    {
      moved := if offset >= bytes then bytes else offset;
      offset := offset - moved;
      size := size + moved;
    }

    /** Appends at most `len` bytes from `src`'s data pointer on, as many as there is room for. */
    method Append2(src: FlexBuffer, len: nat)
      requires Valid() && src.offset + Min(len, Available()) <= src.buffer.Length
      requires src != this && src.buffer != buffer
      modifies this`size, buffer
      ensures Valid() && Content() == old(Content()) + src.buffer[src.offset..src.offset + Min(len, old(Available()))]
    {
      var n := if len < Available() then len else Available();
      var end := offset + size;
      ghost var before, data := Content(), src.buffer[src.offset..src.offset + n];
      forall i | 0 <= i < n {
        buffer[end + i] := src.buffer[src.offset + i];
      }
      size := size + n;
      forall k | 0 <= k < size ensures Content()[k] == (before + data)[k] {
        assert k >= |before| ==> buffer[end + (k - |before|)] == data[k - |before|];
      }
    }

    method Append(src: FlexBuffer)
      requires Valid() && src.Valid()
      requires src != this && src.buffer != buffer
      modifies this`size, buffer
      ensures Valid() && Content() == old(Content()) + src.Content()[..Min(src.size, old(Available()))]
    {
      assert src.buffer[src.offset..src.offset + Min(src.size, Available())] == src.Content()[..Min(src.size, Available())];
      Append2(src, src.size);
    }
  }
}
