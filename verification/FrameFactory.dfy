/**
  Printing frames into a reused buffer, with masking keys from the cache.
*/
module FrameFactories {
  import opened Bytes
  import opened Frames
  import opened Wire
  import opened Streams
  import opened FrameBuffers
  import opened RandomKeys
  import Words

  /** Control frames carry at most this much payload (section 5.5 of RFC 6455). */
  const MAX_CONTROL := 125

  datatype Printed = TooLong | Printed(frame: Frame, bytes: seq<byte>)

  lemma TwoLengthBytes(n: nat, k: nat)
    requires k == 2
    ensures LengthBytes(n, k) == [n / 256 % 256, n % 256]
  {
    LengthBytesAt(n, k, 0);
    LengthBytesAt(n, k, 1);
    assert Weight(1) == 256 && Weight(0) == 1;
  }

  /** The second byte and the extended length, in network order. */
  method WriteLength(fb: FrameBuffer, mask: bool, n: nat)
    requires fb.Valid() && fb.ptr + 9 <= |fb.buf|
    modifies fb
    ensures fb.Valid() && |fb.buf| == old(|fb.buf|)
    ensures fb.Contents() == old(fb.Contents()) + LengthField(mask, n)
  {
    if n < 126 {
      fb.PushByte(SecondByte(mask, n));
    } else if n <= 0xFFFF {
      fb.PushByte(SecondByte(mask, 126));
      WriteLength16(fb, n);
    } else {
      fb.PushByte(SecondByte(mask, 127));
      WriteLength64(fb, n);
    }
  }

  method WriteLength16(fb: FrameBuffer, n: nat)
    requires fb.Valid() && fb.ptr + 2 <= |fb.buf| && ExtendedSize(n) == 2
    modifies fb
    ensures fb.Valid() && |fb.buf| == old(|fb.buf|)
    ensures fb.Contents() == old(fb.Contents()) + LengthBytes(n, ExtendedSize(n))
  {
    var high: byte := n / 256 % 256;
    var low: byte := n % 256;
    TwoLengthBytes(n, ExtendedSize(n));
    fb.PushByte(high);
    fb.PushByte(low);
  }

  method WriteLength64(fb: FrameBuffer, n: nat)
    requires fb.Valid() && fb.ptr + 8 <= |fb.buf| && ExtendedSize(n) == 8
    modifies fb
    ensures fb.Valid() && |fb.buf| == old(|fb.buf|)
    ensures fb.Contents() == old(fb.Contents()) + LengthBytes(n, ExtendedSize(n))
  {
    ghost var front := fb.Contents();
    var at := fb.GetSpace(8);
    var i := 8;
    while i > 0
      invariant 0 <= i <= 8 && at == |front| + 8 - i
      invariant fb.Valid() && fb.ptr == |front| + 8 && |fb.buf| == old(|fb.buf|)
      invariant fb.buf[..at] == front + LengthBytes(n, ExtendedSize(n))[..8 - i]
    {
      i := i - 1;
      LengthBytesAt(n, ExtendedSize(n), 7 - i);
      fb.Put(at, n / Weight(i) % 256);
      at := at + 1;
    }
  }

  /** The key and the payload under it, or the payload as it is. */
  method WritePayload(fb: FrameBuffer, f: Frame)
    requires fb.Valid() && fb.ptr + |f.payload| + 4 <= |fb.buf|
    modifies fb
    ensures fb.Valid() && |fb.buf| == old(|fb.buf|)
    ensures fb.Contents() == old(fb.Contents()) + (if f.mask then f.key else []) + OnWire(f).payload
    ensures Shown(fb.Contents()[fb.ptr - |f.payload|..], f)
  {
    if f.mask {
      fb.PushView(f.key);
      WriteMasked(fb, f.payload, f.key);
    } else {
      fb.PushView(f.payload);
    }
    OnWireShown(f);
    assert fb.Contents()[fb.ptr - |f.payload|..] == OnWire(f).payload;
  }

  /** The payload, each byte under its byte of the key. */
  method WriteMasked(fb: FrameBuffer, payload: seq<byte>, key: Key)
    requires fb.Valid() && fb.ptr + |payload| <= |fb.buf|
    modifies fb
    ensures fb.Valid() && |fb.buf| == old(|fb.buf|)
    ensures fb.Contents() == old(fb.Contents()) + Masked(payload, key)
  {
    ghost var front, masked := fb.Contents(), Masked(payload, key);
    var start := fb.GetSpace(|payload|);
    var i := 0;
    while i < |payload|
      invariant 0 <= i <= |payload| && start == |front|
      invariant fb.Valid() && fb.ptr == start + |payload| && |fb.buf| == old(|fb.buf|)
      invariant fb.buf[..start + i] == front + masked[..i]
    {
      fb.Put(start + i, Xor(payload[i], key[i % 4]));
      assert masked[..i + 1] == masked[..i] + [Xor(payload[i], key[i % 4])];
      i := i + 1;
    }
    assert masked[..i] == masked;
  }

  /** The whole frame, into a buffer that grows to hold it and is never written past its end. */
  method ConstructFrame(fb: FrameBuffer, f: Frame)
    requires fb.Valid()
    modifies fb
    ensures fb.Valid() && fb.Contents() == Encode(f)
    ensures Laid(fb.Contents(), f)
    ensures fb.ptr <= |f.payload| + 14 <= |fb.buf|
    ensures |fb.buf| == Max(old(|fb.buf|), |f.payload| + 114)
  {
    fb.Reset();
    fb.EnsureFit(|f.payload| + 14 + 100);
    fb.PushByte((if f.fin then 128 else 0) + f.opcode % 16);
    WriteLength(fb, f.mask, |f.payload|);
    WritePayload(fb, f);
    EncodeLaid(f);
  }

  /** One frame after the other, all through the same buffer. */
  method PrintAll(fs: seq<Frame>) returns (bytes: seq<byte>)
    ensures bytes == EncodeAll(fs)
  {
    var fb := new FrameBuffer();
    bytes := [];
    for i := 0 to |fs|
      invariant fb.Valid() && fresh(fb) && bytes == EncodeAll(fs[..i])
    {
      assert fs[..i + 1][..i] == fs[..i];
      ConstructFrame(fb, fs[i]);
      bytes := bytes + fb.buf[..fb.ptr];
    }
    assert fs[..|fs|] == fs;
  }

  class FrameFactory {
    const fb: FrameBuffer
    const random: RandomCache

    ghost predicate Valid()
      reads this, fb, random, random.rng, random.cache
    {
      fb.Valid() && random.Valid()
    }

    constructor (seed1: Words.Word, seed2: Words.Word, layout: Layout)
      ensures Valid() && random.Position() == 0
      ensures random.rng.layout == layout && random.rng.seed == SeedOf(seed1, seed2)
      ensures fresh(fb) && fresh(random) && fresh(random.rng) && fresh(random.cache)
    {
      fb := new FrameBuffer();
      random := new RandomCache(seed1, seed2, layout);
    }

    /** The key that the next masked frame will get. */
    ghost function NextKey(): Key
      requires Valid()
      reads this, fb, random, random.rng, random.cache
    {
      KeyAt(random.rng.layout, random.rng.seed, random.Position())
    }

    method Construct(fin: bool, opcode: byte, mask: bool, payload: seq<byte>) returns (p: Printed)
      requires Valid()
      modifies fb, random`cachePtr, random.rng, random.cache
      ensures Valid() && random.Position() == old(random.Position()) + if mask then 4 else 0
      ensures p == var f := Frame(fin, opcode, mask, if mask then old(NextKey()) else ZERO_KEY, payload);
                   Printed(f, Encode(f))
    {
      var key: Key := ZERO_KEY;
      if mask {
        key := random.Get();
      }
      var frame := Frame(fin, opcode, mask, key, payload);
      ConstructFrame(fb, frame);
      p := Printed(frame, fb.buf[..fb.ptr]);
    }

    /** Pings, pongs and closes: refused when too long, before a key is used up. */
    method Control(opcode: byte, mask: bool, payload: seq<byte>) returns (p: Printed)
      requires Valid()
      modifies fb, random`cachePtr, random.rng, random.cache
      ensures Valid()
      ensures |payload| > MAX_CONTROL ==> p == TooLong && random.Position() == old(random.Position())
      ensures |payload| <= MAX_CONTROL ==>
                && random.Position() == old(random.Position()) + (if mask then 4 else 0)
                && p == var f := Frame(true, opcode, mask, if mask then old(NextKey()) else ZERO_KEY, payload);
                        Printed(f, Encode(f))
    {
      if |payload| > MAX_CONTROL {
        return TooLong;
      }
      p := Construct(true, opcode, mask, payload);
    }
  }
}
