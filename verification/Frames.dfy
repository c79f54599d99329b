/**
  The WebSocket frame format (sections 5.2 and 5.3 of RFC 6455) as pure functions:
  what a frame looks like on the wire, and what a byte string says as a frame.
  Decoding here looks at the whole byte string at once; the staged parser in
  FrameParser.dfy is proved against it.
*/
module Frames {
  import opened Bytes

  const CONTINUATION: byte := 0x0
  const TEXT: byte := 0x1
  const BINARY: byte := 0x2
  const CLOSE: byte := 0x8
  const PING: byte := 0x9
  const PONG: byte := 0xA

  /** 2 to the power 64: the payload length is a 64-bit unsigned number. */
  const TWO_64: nat := 0x1_0000_0000_0000_0000

  /** The opcode is any byte, as in an enum over uint8_t; only its low four bits are sent. */
  datatype Frame = Frame(fin: bool, opcode: byte, mask: bool, key: Key, payload: seq<byte>)

  // ------------------------------------------------------------ masking

  /** Exclusive or with the key, repeated every four bytes. */
  function Masked(payload: seq<byte>, key: Key): (s: seq<byte>)
    ensures |s| == |payload|
  {
    seq(|payload|, i requires 0 <= i < |payload| => Xor(payload[i], key[i % 4]))
  }

  lemma MaskedTwice(payload: seq<byte>, key: Key)
    ensures Masked(Masked(payload, key), key) == payload
  {
    forall i | 0 <= i < |payload|
      ensures Masked(Masked(payload, key), key)[i] == payload[i]
    {
      XorTwice(payload[i], key[i % 4]);
    }
  }

  /** What the receiver gets to see of the header: four opcode bits, and a key only if masked. */
  function Normal(f: Frame): Frame {
    f.(opcode := f.opcode % 16, key := if f.mask then f.key else ZERO_KEY)
  }

  /** The frame with its payload as it travels: masked if the mask bit is set. */
  function OnWire(f: Frame): Frame {
    if f.mask then Normal(f).(payload := Masked(f.payload, f.key)) else Normal(f)
  }

  /** Undoes the masking of a received frame. The parser itself does not do this. */
  function Unmask(f: Frame): Frame {
    if f.mask then f.(payload := Masked(f.payload, f.key)) else f
  }

  lemma UnmaskOnWire(f: Frame)
    ensures Unmask(OnWire(f)) == Normal(f)
  {
    MaskedTwice(f.payload, f.key);
  }

  // ------------------------------------------------------------ printing

  /** The mask bit and seven more bits. */
  function SecondByte(mask: bool, low: nat): byte
    requires low < 128
  {
    (if mask then 128 else 0) + low
  }

  /** The number of extended length bytes, and the seven bits that announce them. */
  function ExtendedSize(n: nat): (k: nat)
    ensures k in {0, 2, 8}
  {
    if n < 126 then 0 else if n <= 0xFFFF then 2 else 8
  }

  function LengthCode(n: nat): (c: nat)
    ensures c < 128
  {
    if n < 126 then n else if n <= 0xFFFF then 126 else 127
  }

  function LengthField(mask: bool, n: nat): (s: seq<byte>)
    ensures |s| == 1 + ExtendedSize(n)
  {
    [SecondByte(mask, LengthCode(n))] + LengthBytes(n, ExtendedSize(n))
  }

  function Header(f: Frame): (s: seq<byte>)
    ensures 2 <= |s| <= 14
  {
    [(if f.fin then 128 else 0) + f.opcode % 16]
    + LengthField(f.mask, |f.payload|)
    + (if f.mask then f.key else [])
  }

  /** The bytes of a frame. */
  function Encode(f: Frame): (s: seq<byte>)
    ensures 2 + |f.payload| <= |s| <= 14 + |f.payload|
  {
    Header(f) + OnWire(f).payload
  }

  // ------------------------------------------------------------ decoding

  // The single-byte fields: the bits under the masks 0x80, 0x0F and 0x7F.
  predicate HighBit(b: byte) { b >= 128 }
  function Low4(b: byte): byte { b % 16 }
  function Low7(b: byte): byte { b % 128 }

  /** How many extended length bytes follow the second byte. */
  function ExtraLength(b: byte): (n: nat)
    ensures n in {0, 2, 8}
  {
    if Low7(b) == 126 then 2 else if Low7(b) == 127 then 8 else 0
  }

  /** Where the payload starts; the second byte alone decides it. */
  function HeaderSize(s: seq<byte>): (n: nat)
    requires |s| >= 2
    ensures 2 <= n <= 14
  {
    2 + ExtraLength(s[1]) + if HighBit(s[1]) then 4 else 0
  }

  function PayloadLength(s: seq<byte>): (n: nat)
    requires |s| >= 2 && |s| >= 2 + ExtraLength(s[1])
  {
    if ExtraLength(s[1]) == 0 then Low7(s[1]) else BigEndian(s[2..2 + ExtraLength(s[1])])
  }

  predicate HasHeader(s: seq<byte>) {
    |s| >= 2 && |s| >= HeaderSize(s)
  }

  function FrameSize(s: seq<byte>): (n: nat)
    requires HasHeader(s)
    ensures n >= 2
  {
    HeaderSize(s) + PayloadLength(s)
  }

  /** The byte string starts with a whole frame. */
  predicate Complete(s: seq<byte>) {
    HasHeader(s) && FrameSize(s) <= |s|
  }

  /** The byte string is one whole frame and nothing more. */
  predicate IsFrame(s: seq<byte>) {
    Complete(s) && FrameSize(s) == |s|
  }

  function KeyField(s: seq<byte>): Key
    requires HasHeader(s)
  {
    if HighBit(s[1]) then s[HeaderSize(s) - 4..HeaderSize(s)] else ZERO_KEY
  }

  /** The first frame of a byte string; the payload is still masked. */
  function Decode(s: seq<byte>): Frame
    requires Complete(s)
  {
    Frame(HighBit(s[0]), Low4(s[0]), HighBit(s[1]), KeyField(s),
          s[HeaderSize(s)..FrameSize(s)])
  }

  // ------------------------------------------------------------ more bytes do not change a frame

  lemma PrefixHeader(s: seq<byte>, t: seq<byte>)
    requires HasHeader(s)
    ensures HasHeader(s + t)
    ensures HeaderSize(s + t) == HeaderSize(s)
    ensures PayloadLength(s + t) == PayloadLength(s)
    ensures KeyField(s + t) == KeyField(s)
  {
    var e := ExtraLength(s[1]);
    assert (s + t)[2..2 + e] == s[2..2 + e];
    if HighBit(s[1]) {
      assert (s + t)[HeaderSize(s) - 4..HeaderSize(s)] == s[HeaderSize(s) - 4..HeaderSize(s)];
    }
  }

  lemma PrefixComplete(s: seq<byte>, t: seq<byte>)
    requires Complete(s)
    ensures Complete(s + t) && FrameSize(s + t) == FrameSize(s)
    ensures Decode(s + t) == Decode(s)
  {
    PrefixHeader(s, t);
    assert (s + t)[HeaderSize(s)..FrameSize(s)] == s[HeaderSize(s)..FrameSize(s)];
  }

  /** Bytes after the frame play no part in what it decodes to. */
  lemma DecodeOwnBytes(s: seq<byte>)
    requires Complete(s)
    ensures IsFrame(s[..FrameSize(s)])
    ensures Decode(s[..FrameSize(s)]) == Decode(s)
  {
    var own := s[..FrameSize(s)];
    assert own + s[FrameSize(s)..] == s;
    PrefixHeader(own, s[FrameSize(s)..]);
    PrefixComplete(own, s[FrameSize(s)..]);
  }

  // ------------------------------------------------------------ an incomplete frame can be completed

  /** The first bytes of s and then zeros, up to the end of the header that s announces. */
  function PaddedHeader(s: seq<byte>): (r: seq<byte>)
    ensures HasHeader(r) && s <= r
  {
    var two := s + Zeros(Max(0, 2 - |s|));
    two + Zeros(Max(0, HeaderSize(two) - |two|))
  }

  /** Some bytes that turn an incomplete frame into exactly one frame. */
  function Completion(s: seq<byte>): (t: seq<byte>)
    requires !Complete(s)
  {
    var r := PaddedHeader(s);
    r[|s|..] + Zeros(Max(0, FrameSize(r) - |r|))
  }

  /** A byte string without a whole frame is a strict prefix of one. */
  lemma IncompleteIsPrefix(s: seq<byte>)
    requires !Complete(s)
    ensures Completion(s) != [] && IsFrame(s + Completion(s))
  {
    var r := PaddedHeader(s);
    var z := Zeros(Max(0, FrameSize(r) - |r|));
    assert s + Completion(s) == r + z;
    PrefixHeader(r, z);
    if HasHeader(s) {
      assert r == s;
    } else {
      PaddedHeaderExact(s);
    }
  }

  lemma PaddedHeaderExact(s: seq<byte>)
    requires !HasHeader(s)
    ensures |PaddedHeader(s)| == HeaderSize(PaddedHeader(s)) > |s|
  {
  }

  // ------------------------------------------------------------ round trips

  lemma SecondByteFields(mask: bool, low: nat)
    requires low < 128
    ensures HighBit(SecondByte(mask, low)) == mask && Low7(SecondByte(mask, low)) == low
  {}

  lemma LengthFieldDecodes(b: byte, mask: bool, n: nat)
    requires n < TWO_64
    ensures var s := [b] + LengthField(mask, n);
            && HighBit(s[1]) == mask
            && |s| == 2 + ExtraLength(s[1])
            && PayloadLength(s) == n
  {
    var s, k := [b] + LengthField(mask, n), ExtendedSize(n);
    SecondByteFields(mask, LengthCode(n));
    assert s == [b, SecondByte(mask, LengthCode(n))] + LengthBytes(n, k);
    assert s[2..2 + k] == LengthBytes(n, k);
    if k != 0 {
      Weights();
      LengthRoundTrip(n, k);
    }
  }

  lemma HeaderDecodes(f: Frame)
    requires |f.payload| < TWO_64
    ensures HasHeader(Header(f))
    ensures HeaderSize(Header(f)) == |Header(f)|
    ensures PayloadLength(Header(f)) == |f.payload|
    ensures HighBit(Header(f)[0]) == f.fin && Low4(Header(f)[0]) == f.opcode % 16
    ensures HighBit(Header(f)[1]) == f.mask
    ensures KeyField(Header(f)) == Normal(f).key
  {
    var h := Header(f);
    LengthFieldDecodes(h[0], f.mask, |f.payload|);
    var s := [h[0]] + LengthField(f.mask, |f.payload|);
    assert h == s + (if f.mask then f.key else []);
    assert h[1] == s[1];
    assert h[2..|s|] == s[2..|s|];
    if f.mask {
      assert h[|s|..|h|] == f.key;
    }
  }

  /** Printing a frame and decoding it, whatever follows it on the wire. */
  lemma DecodeEncode(f: Frame, rest: seq<byte>)
    requires |f.payload| < TWO_64
    ensures IsFrame(Encode(f))
    ensures Complete(Encode(f) + rest) && FrameSize(Encode(f) + rest) == |Encode(f)|
    ensures Decode(Encode(f) + rest) == OnWire(f)
    ensures Unmask(Decode(Encode(f) + rest)) == Normal(f)
  {
    var h, p := Header(f), OnWire(f).payload;
    HeaderDecodes(f);
    PrefixHeader(h, p);
    assert (h + p)[|h|..|h + p|] == p;
    assert Decode(h + p) == OnWire(f);
    PrefixComplete(Encode(f), rest);
    UnmaskOnWire(f);
  }

  /** The three reserved bits of the first byte are zero. */
  predicate ReservedZero(s: seq<byte>)
    requires |s| >= 1
  {
    s[0] % 128 < 16
  }

  /** The length is in the shortest of the three forms. */
  predicate ShortestLength(s: seq<byte>)
    requires HasHeader(s)
  {
    match ExtraLength(s[1])
    case 0 => true
    case 2 => PayloadLength(s) >= 126
    case _ => PayloadLength(s) > 0xFFFF
  }

  /** The length field that follows a second byte with these top bit and length bytes. */
  lemma LengthFieldForm(s: seq<byte>)
    requires HasHeader(s)
    ensures PayloadLength(s) < TWO_64
    ensures ExtraLength(s[1]) <= 2 ==> PayloadLength(s) <= 0xFFFF
    ensures ExtraLength(s[1]) > 0 ==>
              s[1..2 + ExtraLength(s[1])]
              == [s[1]] + LengthBytes(PayloadLength(s), ExtraLength(s[1]))
  {
    var e := ExtraLength(s[1]);
    Weights();
    if e > 0 {
      var ext := s[2..2 + e];
      LengthCanonical(ext);
      BigEndianBound(ext);
      assert s[1..2 + e] == [s[1]] + ext;
    }
  }

  lemma LengthFieldCanonical(s: seq<byte>)
    requires HasHeader(s)
    ensures |LengthField(HighBit(s[1]), PayloadLength(s))| <= 1 + ExtraLength(s[1])
    ensures LengthField(HighBit(s[1]), PayloadLength(s)) == s[1..2 + ExtraLength(s[1])]
            <==> ShortestLength(s)
  {
    var e := ExtraLength(s[1]);
    LengthFieldForm(s);
    var own, len := s[1..2 + e], LengthField(HighBit(s[1]), PayloadLength(s));
    if ShortestLength(s) {
      assert len == own;
    } else {
      assert |len| < |own|;
    }
  }

  /** The first byte without its reserved bits. */
  function FirstByte(b: byte): byte {
    (if HighBit(b) then 128 else 0) + Low4(b)
  }

  lemma EncodePieces(f: Frame)
    ensures Encode(f) == [(if f.fin then 128 else 0) + f.opcode % 16]
                         + LengthField(f.mask, |f.payload|)
                         + ((if f.mask then f.key else []) + OnWire(f).payload)
  {}

  lemma OnWireUnmask(d: Frame)
    requires d == Normal(d)
    ensures OnWire(Unmask(d)) == d
  {
    MaskedTwice(d.payload, d.key);
  }

  lemma EncodeParts(s: seq<byte>)
    requires IsFrame(s)
    ensures Encode(Unmask(Decode(s)))
            == [FirstByte(s[0])] + LengthField(HighBit(s[1]), PayloadLength(s))
               + s[2 + ExtraLength(s[1])..]
  {
    var d := Decode(s);
    var f := Unmask(d);
    OnWireUnmask(d);
    TailParts(s, d);
    var tail := (if f.mask then f.key else []) + OnWire(f).payload;
    assert tail == s[2 + ExtraLength(s[1])..];
    EncodePieces(f);
  }

  lemma TailParts(s: seq<byte>, d: Frame)
    requires IsFrame(s) && d == Decode(s)
    ensures (if d.mask then d.key else []) + d.payload == s[2 + ExtraLength(s[1])..]
  {
    var e, h := ExtraLength(s[1]), HeaderSize(s);
    assert s[2 + e..] == s[2 + e..h] + s[h..];
    assert d.payload == s[h..];
  }

  lemma SamePieces(a: byte, b: byte, x: seq<byte>, y: seq<byte>, t: seq<byte>)
    ensures [a] + x + t == [b] + y + t <==> a == b && x == y
  {
    if [a] + x + t == [b] + y + t {
      assert ([a] + x + t)[0] == a && ([b] + y + t)[0] == b;
      assert |x| == |y|;
      assert x == ([a] + x + t)[1..1 + |x|] == ([b] + y + t)[1..1 + |y|] == y;
    }
  }

  /**
    Re-encoding a received frame never makes it longer, and gives back the same bytes
    exactly when the sender left the reserved bits zero and used the shortest length form.
  */
  lemma Canonical(s: seq<byte>)
    requires IsFrame(s)
    ensures |Encode(Unmask(Decode(s)))| <= |s|
    ensures Encode(Unmask(Decode(s))) == s <==> ReservedZero(s) && ShortestLength(s)
  {
    EncodeParts(s);
    LengthFieldCanonical(s);
    var e := ExtraLength(s[1]);
    var len := LengthField(HighBit(s[1]), PayloadLength(s));
    assert s == [s[0]] + s[1..2 + e] + s[2 + e..];
    SamePieces(FirstByte(s[0]), s[0], len, s[1..2 + e], s[2 + e..]);
    FirstByteCanonical(s[0]);
  }

  lemma FirstByteCanonical(b: byte)
    ensures FirstByte(b) == b <==> ReservedZero([b])
  {}
}
