/**
  The growable byte buffer. Its length is the capacity, `ptr` counts the bytes in use;
  the bytes behind `ptr` are scratch space that a read may overwrite.
*/
module FrameBuffers {
  import opened Bytes

  const INITIAL_CAPACITY := 4096

  class FrameBuffer {
    var buf: seq<byte>
    var ptr: nat

    ghost predicate Valid()
      reads this
    {
      ptr <= |buf|
    }

    function Contents(): (s: seq<byte>)
      requires Valid()
      reads this
      ensures |s| == ptr
    {
      buf[..ptr]
    }

    constructor ()
      ensures Valid() && Contents() == [] && |buf| == 4096
    {
      buf, ptr := Zeros(INITIAL_CAPACITY), 0;
    }

    /** Unless the storage grew, what lies behind the bytes in use is as it was. */
    twostate predicate TailKept()
      reads this
    {
      |buf| == old(|buf|) ==> forall i :: ptr <= i < |buf| ==> buf[i] == old(buf)[i]
    }

    method Reset()
      modifies this`ptr
      ensures Valid() && Contents() == []
    {
      ptr := 0;
    }

    method EnsureFit(size: nat)
      requires Valid()
      modifies this`buf
      ensures Valid() && Contents() == old(Contents())
      ensures |buf| == Max(old(|buf|), size) && buf[..old(|buf|)] == old(buf)
    {
      if |buf| < size {
        buf := buf + Zeros(size - |buf|);
      }
    }

    method EnsureExtraSpace(extra: nat)
      requires Valid()
      modifies this`buf
      ensures Valid() && Contents() == old(Contents())
      ensures |buf| == Max(old(|buf|), ptr + extra) && buf[..old(|buf|)] == old(buf)
    {
      EnsureFit(ptr + extra);
    }

    /** Does no bounds checking in the source: room is the caller's obligation. */
    method PushByte(b: byte)
      requires Valid() && ptr < |buf|
      modifies this
      ensures Valid() && Contents() == old(Contents()) + [b]
      ensures |buf| == old(|buf|)
    {
      buf := buf[ptr := b];
      ptr := ptr + 1;
    }

    /** Hands out the next `size` bytes, whatever they hold; no bounds checking in the source. */
    method GetSpace(size: nat) returns (start: nat)
      requires Valid() && ptr + size <= |buf|
      modifies this`ptr
      ensures Valid() && start == old(ptr) && ptr == start + size
    {
      start := ptr;
      ptr := ptr + size;
    }

    method ClaimSpace(size: nat)
      requires Valid() && ptr + size <= |buf|
      modifies this`ptr
      ensures Valid() && ptr == old(ptr) + size
    {
      ptr := ptr + size;
    }

    /** One byte into space handed out before. */
    method Put(at: nat, b: byte)
      requires Valid() && at < |buf|
      modifies this`buf
      ensures Valid() && buf == old(buf)[at := b]
    {
      buf := buf[at := b];
    }

    /** A block copy into the buffer. */
    method Copy(at: nat, bytes: seq<byte>)
      requires Valid() && at + |bytes| <= |buf|
      modifies this`buf
      ensures Valid() && |buf| == old(|buf|)
      ensures buf[..at] == old(buf)[..at]
      ensures buf[at..at + |bytes|] == bytes
      ensures buf[at + |bytes|..] == old(buf)[at + |bytes|..]
    {
      buf := buf[..at] + bytes + buf[at + |bytes|..];
    }

    method PushView(view: seq<byte>)
      requires Valid()
      modifies this
      ensures Valid() && Contents() == old(Contents()) + view
      ensures |buf| == Max(old(|buf|), old(ptr) + |view|)
      ensures TailKept()
    {
      EnsureExtraSpace(|view|);
      var start := GetSpace(|view|);
      ghost var front := buf[..start];
      Copy(start, view);
      assert buf[..ptr] == front + view;
    }

    /** What a read into the tail leaves behind: the bytes, claimed. */
    method Receive(bytes: seq<byte>)
      requires Valid() && ptr + |bytes| <= |buf|
      modifies this
      ensures Valid() && Contents() == old(Contents()) + bytes
      ensures |buf| == old(|buf|) && TailKept()
    {
      ghost var front := buf[..ptr];
      Copy(ptr, bytes);
      ClaimSpace(|bytes|);
      assert buf[..ptr] == front + bytes;
    }

    /** Moves the bytes from `from` on to the front, over the ones before them. */
    method Compact(from: nat)
      requires Valid() && from <= ptr
      modifies this
      ensures Valid() && Contents() == old(Contents())[from..]
      ensures |buf| == old(|buf|) && TailKept()
    {
      var rest := buf[from..ptr];
      Copy(0, rest);
      Reset();
      ClaimSpace(|rest|);
      assert buf[..ptr] == rest;
    }
  }
}
