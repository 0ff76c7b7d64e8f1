/**
 * ShimSlice (src/shim/shim-slice.h): a window, offset and length, onto a
 * shared ShimBuffer. The slice's operator[] and size() are declared in
 * that header without a definition in the source; here element i is the
 * buffer's byte at offset + i and the size is the length.
 */
module ShimSlices {
  import opened ShimBuffers

  class ShimSlice {
    var buf: ShimBuffer
    var offset: int
    var length: int

    /** The window lies inside the buffer's array. */
    ghost predicate InBounds()
      reads this, buf
    {
      buf.Valid() && 0 <= offset && 0 <= length && offset + length <= BufferSize
    }

    /** ShimSlice(buf, offset, length): the given window. */
    constructor Make(b: ShimBuffer, o: int, l: int)
      ensures buf == b && offset == o && length == l
    {
      buf := b;
      offset := o;
      length := l;
    }

    /** ShimSlice(buf): from the buffer's filled position to the end of its array. */
    constructor FromBuffer(b: ShimBuffer)
      ensures buf == b && offset == b.GetFilled() && length == BufferSize - offset
      ensures offset + length == BufferSize
    {
      buf := b;
      offset := b.GetFilled();
      length := BufferSize - b.GetFilled();
    }

    /** ShimSlice(slice, offset, length): the same buffer, with offset relative to the other slice's. */
    constructor Sub(slice: ShimSlice, o: int, l: int)
      ensures buf == slice.buf && offset == slice.offset + o && length == l
    {
      buf := slice.buf;
      offset := slice.offset + o;
      length := l;
    }

    /** change: moves the window by o (relative to the old offset) and sets its length to l. */
    method Change(o: int, l: int)
      modifies this
      ensures buf == old(buf) && offset == old(offset) + o && length == l
    {
      offset := offset + o;
      length := l;
    }

    function Size(): int
      reads this
    {
      length
    }

    /** operator[]: element index of the window. */
    function At(index: int): bv8
      requires InBounds() && 0 <= index < length
      reads this, buf, buf.buf
    {
      buf.At(offset + index)
    }

    /** content_as_string: exactly size() bytes, element 0 first. */
    function ContentAsString(): (s: seq<bv8>)
      requires InBounds()
      reads this, buf, buf.buf
      ensures |s| == Size()
      ensures forall i :: 0 <= i < |s| ==> s[i] == At(i)
    {
      buf.buf[offset..offset + length]
    }
  }

  /** A slice taken from a buffer that is not full has room for more than a minimum chunk. */
  lemma FreshSliceHasChunk(b: ShimBuffer, s: ShimSlice)
    requires s.buf == b && s.offset == b.GetFilled() && s.length == BufferSize - s.offset
    requires !b.IsFull()
    ensures s.Size() > BufferMinChunkSize
  {
    b.NotFullLeavesChunk();
  }

  /** A sub-slice inside its parent holds the parent's bytes from the relative offset. */
  lemma SubSliceContent(parent: ShimSlice, child: ShimSlice, o: int)
    requires parent.InBounds() && child.buf == parent.buf
    requires child.offset == parent.offset + o
    requires 0 <= o && 0 <= child.length && o + child.length <= parent.length
    ensures child.InBounds()
    ensures child.ContentAsString() == parent.ContentAsString()[o..o + child.length]
  {
    var p := parent.ContentAsString();
    var c := child.ContentAsString();
    forall i | 0 <= i < |c|
      ensures c[i] == p[o + i]
    {
      assert c[i] == child.At(i) && p[o + i] == parent.At(o + i);
    }
  }
}
