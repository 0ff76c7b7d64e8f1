/**
 * ShimBuffer (src/shim/shim-buffer.h): a fixed array of BufferSize bytes
 * filled from the front by successive reads, and counted as full once
 * less than a minimum chunk is left for the next read.
 */
module ShimBuffers {
  const BufferSize: int := 16384
  const BufferMinChunkSize: int := 256
  const MaxBufferSizeForTopUp: int := BufferSize - BufferMinChunkSize

  class ShimBuffer {
    const buf: array<bv8>
    var nFilled: int

    ghost predicate Valid()
      reads this
    {
      buf.Length == BufferSize
    }

    /** A new buffer: BufferSize zero bytes (`buf{}`), none of them filled. */
    constructor ()
      ensures Valid() && fresh(buf)
      ensures GetFilled() == 0 && !IsFull()
      ensures forall i :: 0 <= i < BufferSize ==> buf[i] == 0
    {
      buf := new bv8[BufferSize](_ => 0);
      nFilled := 0;
    }

    /** get_filled: how many bytes have been filled so far. */
    function GetFilled(): int
      reads this
    {
      nFilled
    }

    /**
     * is_full: too little is left for another minimum-size chunk, that is,
     * fewer than BufferMinChunkSize bytes, or exactly that many.
     */
    predicate IsFull()
      reads this
    {
      nFilled >= MaxBufferSizeForTopUp
    }

    /** A buffer that is not full leaves more than a minimum chunk after its filled bytes. */
    lemma NotFullLeavesChunk()
      ensures !IsFull() <==> BufferSize - GetFilled() > BufferMinChunkSize
    {
    }

    /** bytes_added: n more bytes are filled; the result is whether the buffer is now full. */
    method BytesAdded(n: int) returns (full: bool)
      modifies this
      ensures GetFilled() == old(GetFilled()) + n
      ensures full == IsFull()
    {
      nFilled := nFilled + n;
      return IsFull();
    }

    /** operator[]: the byte at index, which must lie inside the array. */
    function At(index: int): bv8
      requires Valid() && 0 <= index < BufferSize
      reads this, buf
    {
      buf[index]
    }
  }
}
