/**
  The wire format once more, byte by byte and in the literal numbers of section 5.2 of
  RFC 6455: an independent description that `Encode` and `Decode` are proved to meet.
*/
module Wire {
  import opened Bytes
  import opened Frames

  // ------------------------------------------------------------ the numbers

  /** How many extended length bytes a payload of n bytes needs. */
  function Extra(n: nat): nat {
    if n < 126 then 0 else if n <= 65535 then 2 else 8
  }

  /** Where the payload starts. */
  function Start(mask: bool, n: nat): nat {
    2 + Extra(n) + if mask then 4 else 0
  }

  /** These bytes hold n, most significant first. */
  predicate Holds(b: seq<byte>, n: nat) {
    forall j :: 0 <= j < |b| ==> b[j] == n / Pow2(8 * (|b| - 1 - j)) % 256
  }

  /** Bit for bit, the exclusive or of two bytes. */
  predicate IsXor(b: byte, a: byte, k: byte) {
    forall i :: 0 <= i < 8 ==> (BitOf(b, i) == 1 <==> BitOf(a, i) != BitOf(k, i))
  }

  /** The bytes of a frame: two bytes, the length, the key and the payload under the key. */
  ghost predicate Laid(s: seq<byte>, f: Frame) {
    var n := |f.payload|;
    var h := Start(f.mask, n);
    && |s| == h + n
    && s[0] == (if f.fin then 0x80 else 0) + f.opcode % 16
    && s[1] == (if f.mask then 0x80 else 0) + (if n < 126 then n else if n <= 65535 then 126 else 127)
    && Holds(s[2..2 + Extra(n)], n)
    && (f.mask ==> s[h - 4..h] == f.key)
    && Shown(s[h..], f)
  }

  /** The payload of f, each byte under its byte of the key if f is masked. */
  ghost predicate Shown(s: seq<byte>, f: Frame) {
    && |s| == |f.payload|
    && forall i :: 0 <= i < |s| ==>
         if f.mask then IsXor(s[i], f.payload[i], f.key[i % 4]) else s[i] == f.payload[i]
  }

  // ------------------------------------------------------------ printing

  lemma XorIsXor(a: byte, k: byte)
    ensures IsXor(Xor(a, k), a, k)
  {
    forall i | 0 <= i < 8
      ensures BitOf(Xor(a, k), i) == 1 <==> BitOf(a, i) != BitOf(k, i)
    {
      XorAt(a, k, i);
    }
  }

  lemma LengthBytesHold(n: nat, e: nat)
    ensures Holds(LengthBytes(n, e), n)
  {
    forall j | 0 <= j < e
      ensures LengthBytes(n, e)[j] == n / Pow2(8 * (e - 1 - j)) % 256
    {
      LengthBytesAt(n, e, j);
      WeightIsPow2(e - 1 - j);
    }
  }

  lemma HeaderLaid(f: Frame)
    ensures var s, n := Header(f), |f.payload|;
            && |s| == Start(f.mask, n)
            && s[0] == (if f.fin then 0x80 else 0) + f.opcode % 16
            && s[1] == (if f.mask then 0x80 else 0) + (if n < 126 then n else if n <= 65535 then 126 else 127)
            && Holds(s[2..2 + Extra(n)], n)
            && (f.mask ==> s[|s| - 4..] == f.key)
  {
    var s, n := Header(f), |f.payload|;
    LengthBytesHold(n, ExtendedSize(n));
    assert s[2..2 + Extra(n)] == LengthBytes(n, ExtendedSize(n));
  }

  /** Encode prints every frame as the standard lays it out. */
  lemma EncodeLaid(f: Frame)
    ensures Laid(Encode(f), f)
  {
    var s, t := Header(f), OnWire(f).payload;
    HeaderLaid(f);
    assert (s + t)[2..2 + Extra(|f.payload|)] == s[2..2 + Extra(|f.payload|)];
    assert f.mask ==> (s + t)[|s| - 4..|s|] == s[|s| - 4..];
    OnWireShown(f);
    assert (s + t)[|s|..] == t;
  }

  lemma OnWireShown(f: Frame)
    ensures Shown(OnWire(f).payload, f)
  {
    forall i | 0 <= i < |f.payload|
      ensures f.mask ==> IsXor(OnWire(f).payload[i], f.payload[i], f.key[i % 4])
    {
      XorIsXor(f.payload[i], f.key[i % 4]);
    }
  }

  // ------------------------------------------------------------ parsing

  /** A length n in e bytes of s from the third on. */
  ghost predicate IsLength(s: seq<byte>, e: nat, n: nat) {
    |s| >= 2 + e && n < Pow2(8 * e) && Holds(s[2..2 + e], n)
  }

  /** How many extended length bytes the second byte announces. */
  function Announced(b: byte): nat {
    if b % 128 == 126 then 2 else if b % 128 == 127 then 8 else 0
  }

  /** A frame read off the front of s, in any of the three length forms; the payload as it came. */
  ghost predicate ReadOff(s: seq<byte>, f: Frame) {
    |s| >= 2 &&
    var n, e := |f.payload|, Announced(s[1]);
    var h := 2 + e + if s[1] >= 0x80 then 4 else 0;
    && |s| >= h + n
    && (f.fin <==> s[0] >= 0x80) && f.opcode == s[0] % 16 && (f.mask <==> s[1] >= 0x80)
    && (if e == 0 then n == s[1] % 128 else IsLength(s, e, n))
    && (f.key == if f.mask then s[h - 4..h] else [0, 0, 0, 0])
    && f.payload == s[h..h + n]
  }

  lemma LengthIs(s: seq<byte>, e: nat)
    requires |s| >= 2 + e
    ensures IsLength(s, e, BigEndian(s[2..2 + e]))
  {
    var ext := s[2..2 + e];
    BigEndianBound(ext);
    WeightIsPow2(e);
    LengthCanonical(ext);
    LengthBytesHold(BigEndian(ext), e);
  }

  /** Decode reads the first frame of s off as the standard lays it out. */
  lemma DecodeReadsOff(s: seq<byte>)
    requires Complete(s)
    ensures ReadOff(s, Decode(s))
  {
    var e := ExtraLength(s[1]);
    LengthIs(s, e);
  }

  lemma SameLength(s: seq<byte>, e: nat, n: nat)
    requires IsLength(s, e, n)
    ensures n == BigEndian(s[2..2 + e])
  {
    LengthBytesHold(n, e);
    assert LengthBytes(n, e) == s[2..2 + e];
    WeightIsPow2(e);
    LengthRoundTrip(n, e);
  }

  /** A frame can be read off the front of s exactly if s starts with a whole one, and only this one. */
  lemma ReadOffIsDecode(s: seq<byte>, f: Frame)
    requires ReadOff(s, f)
    ensures Complete(s) && f == Decode(s)
    ensures FrameSize(s) == 2 + Announced(s[1]) + (if s[1] >= 0x80 then 4 else 0) + |f.payload|
  {
    var e := ExtraLength(s[1]);
    if e > 0 {
      SameLength(s, e, |f.payload|);
    }
    assert HasHeader(s) && PayloadLength(s) == |f.payload|;
  }
}
