/**
  Streams of frames: the reference decoding of a whole byte stream, with no notion of
  chunks, stages or buffers.
*/
module Streams {
  import opened Bytes
  import opened Frames

  /** All whole frames at the start of the stream, in order. */
  function DecodeAll(s: seq<byte>): (fs: seq<Frame>)
    decreases |s|
  {
    if Complete(s) then [Decode(s)] + DecodeAll(s[FrameSize(s)..]) else []
  }

  /** The bytes after the last whole frame. */
  function Remainder(s: seq<byte>): (r: seq<byte>)
    ensures |r| <= |s|
    decreases |s|
  {
    if Complete(s) then Remainder(s[FrameSize(s)..]) else s
  }

  /** The wire image of a list of frames. */
  function EncodeAll(fs: seq<Frame>): seq<byte> {
    if fs == [] then [] else EncodeAll(fs[..|fs| - 1]) + Encode(fs[|fs| - 1])
  }

  function OnWireAll(fs: seq<Frame>): seq<Frame> {
    seq(|fs|, i requires 0 <= i < |fs| => OnWire(fs[i]))
  }

  function UnmaskAll(fs: seq<Frame>): seq<Frame> {
    seq(|fs|, i requires 0 <= i < |fs| => Unmask(fs[i]))
  }

  function NormalAll(fs: seq<Frame>): seq<Frame> {
    seq(|fs|, i requires 0 <= i < |fs| => Normal(fs[i]))
  }

  /** What remains is a strict prefix of a frame. */
  lemma {:induction false} RemainderIncomplete(s: seq<byte>)
    ensures !Complete(Remainder(s))
    decreases |s|
  {
    if Complete(s) {
      RemainderIncomplete(s[FrameSize(s)..]);
    }
  }

  lemma DropAppend(s: seq<byte>, t: seq<byte>, n: nat)
    requires n <= |s|
    ensures (s + t)[n..] == s[n..] + t
  {}

  lemma Regroup(fs: seq<Frame>, gs: seq<Frame>, hs: seq<Frame>)
    ensures fs + gs + hs == fs + (gs + hs)
  {}

  lemma {:induction false} RemainderAppend(s: seq<byte>, t: seq<byte>)
    ensures Remainder(s + t) == Remainder(Remainder(s) + t)
    decreases |s|
  {
    if Complete(s) {
      var n := FrameSize(s);
      PrefixComplete(s, t);
      DropAppend(s, t, n);
      RemainderAppend(s[n..], t);
    }
  }

  lemma {:induction false} FramesAppend(s: seq<byte>, t: seq<byte>)
    ensures DecodeAll(s + t) == DecodeAll(s) + DecodeAll(Remainder(s) + t)
    decreases |s|
  {
    if Complete(s) {
      var n := FrameSize(s);
      PrefixComplete(s, t);
      DropAppend(s, t, n);
      FramesAppend(s[n..], t);
      Regroup([Decode(s)], DecodeAll(s[n..]), DecodeAll(Remainder(s) + t));
    }
  }

  /** Decoding in two instalments, carrying the remainder over, is decoding at once. */
  lemma DecodeAppend(s: seq<byte>, t: seq<byte>)
    ensures DecodeAll(s + t) == DecodeAll(s) + DecodeAll(Remainder(s) + t)
    ensures Remainder(s + t) == Remainder(Remainder(s) + t)
  {
    FramesAppend(s, t);
    RemainderAppend(s, t);
  }

  lemma DecodeMonotone(s: seq<byte>, t: seq<byte>)
    ensures DecodeAll(s) <= DecodeAll(s + t)
  {
    DecodeAppend(s, t);
  }

  /** A frame takes at least two bytes. */
  lemma {:induction false} DecodeCount(s: seq<byte>)
    ensures 2 * |DecodeAll(s)| + |Remainder(s)| <= |s|
    decreases |s|
  {
    if Complete(s) {
      DecodeCount(s[FrameSize(s)..]);
    }
  }

  /** Appending one whole frame to a stream of whole frames. */
  lemma DecodeFrameAfter(s: seq<byte>, t: seq<byte>)
    requires Remainder(s) == [] && IsFrame(t)
    ensures DecodeAll(s + t) == DecodeAll(s) + [Decode(t)] && Remainder(s + t) == []
  {
    DecodeAppend(s, t);
    assert [] + t == t;
    assert t[FrameSize(t)..] == [];
  }

  /** Moving the first frame of s over to a stream of whole frames. */
  lemma TakeFrame(taken: seq<byte>, s: seq<byte>)
    requires Remainder(taken) == [] && Complete(s)
    ensures var n := FrameSize(s);
            && DecodeAll(taken + s[..n]) == DecodeAll(taken) + [Decode(s)]
            && Remainder(taken + s[..n]) == []
            && taken + s[..n] + s[n..] == taken + s
  {
    DecodeOwnBytes(s);
    DecodeFrameAfter(taken, s[..FrameSize(s)]);
    assert s == s[..FrameSize(s)] + s[FrameSize(s)..];
  }

  /** Cutting a frame short leaves no frame. */
  lemma CutFrame(s: seq<byte>, k: nat)
    requires IsFrame(s) && k < |s|
    ensures !Complete(s[..k])
  {
    assert s[..k] + s[k..] == s;
    if Complete(s[..k]) {
      PrefixComplete(s[..k], s[k..]);
    }
  }

  ghost predicate Sendable(fs: seq<Frame>) {
    forall i :: 0 <= i < |fs| ==> |fs[i].payload| < TWO_64
  }

  /** Every list of frames survives printing and decoding, and nothing is left over. */
  lemma {:induction false} StreamRoundTrip(fs: seq<Frame>)
    requires Sendable(fs)
    ensures DecodeAll(EncodeAll(fs)) == OnWireAll(fs) && Remainder(EncodeAll(fs)) == []
    ensures UnmaskAll(DecodeAll(EncodeAll(fs))) == NormalAll(fs)
  {
    if fs != [] {
      var init, f := fs[..|fs| - 1], fs[|fs| - 1];
      StreamRoundTrip(init);
      DecodeEncode(f, []);
      assert Encode(f) + [] == Encode(f);
      DecodeFrameAfter(EncodeAll(init), Encode(f));
      assert OnWireAll(fs) == OnWireAll(init) + [OnWire(f)];
    }
    UnmaskAllOnWire(fs);
  }

  lemma UnmaskAllOnWire(fs: seq<Frame>)
    ensures UnmaskAll(OnWireAll(fs)) == NormalAll(fs)
  {
    forall i | 0 <= i < |fs|
      ensures UnmaskAll(OnWireAll(fs))[i] == NormalAll(fs)[i]
    {
      UnmaskOnWire(fs[i]);
    }
  }

  /** A stream cut in the middle of a frame still decodes to all frames before the cut. */
  lemma CutStream(fs: seq<Frame>, f: Frame, k: nat)
    requires Sendable(fs) && |f.payload| < TWO_64 && k < |Encode(f)|
    ensures DecodeAll(EncodeAll(fs) + Encode(f)[..k]) == OnWireAll(fs)
    ensures Remainder(EncodeAll(fs) + Encode(f)[..k]) == Encode(f)[..k]
  {
    StreamRoundTrip(fs);
    DecodeEncode(f, []);
    CutFrame(Encode(f), k);
    DecodeAppend(EncodeAll(fs), Encode(f)[..k]);
    assert [] + Encode(f)[..k] == Encode(f)[..k];
  }

  /** Two lists of frames with the same wire image are the same, up to what the wire carries. */
  lemma EncodingIsUnambiguous(fs: seq<Frame>, gs: seq<Frame>)
    requires Sendable(fs) && Sendable(gs) && EncodeAll(fs) == EncodeAll(gs)
    ensures NormalAll(fs) == NormalAll(gs)
  {
    StreamRoundTrip(fs);
    StreamRoundTrip(gs);
  }

  lemma {:induction false} EncodeAllCons(f: Frame, fs: seq<Frame>)
    ensures EncodeAll([f] + fs) == Encode(f) + EncodeAll(fs)
  {
    if fs != [] {
      var init := fs[..|fs| - 1];
      EncodeAllCons(f, init);
      assert ([f] + fs)[..|fs|] == [f] + init;
      AppendAssociates(Encode(f), EncodeAll(init), Encode(fs[|fs| - 1]));
    } else {
      assert [f] + fs == [f] && [f][..0] == [];
    }
  }

  /** Printing again what a stream decodes to never takes more bytes than its whole frames. */
  lemma {:induction false} ReencodedLength(s: seq<byte>)
    ensures |EncodeAll(UnmaskAll(DecodeAll(s)))| + |Remainder(s)| <= |s|
    decreases |s|
  {
    if Complete(s) {
      var n := FrameSize(s);
      var f, fs := Unmask(Decode(s)), UnmaskAll(DecodeAll(s[n..]));
      DecodeOwnBytes(s);
      Canonical(s[..n]);
      ReencodedLength(s[n..]);
      assert UnmaskAll(DecodeAll(s)) == [f] + fs;
      EncodeAllCons(f, fs);
    }
  }

  /** What the wire does not carry does not make a frame longer. */
  lemma {:induction false} NormalLength(fs: seq<Frame>)
    ensures |EncodeAll(NormalAll(fs))| == |EncodeAll(fs)|
  {
    if fs != [] {
      var init := fs[..|fs| - 1];
      NormalLength(init);
      assert NormalAll(fs)[..|fs| - 1] == NormalAll(init);
    }
  }

  /** A payload is no longer than the stream it is decoded from. */
  lemma {:induction false} PayloadsFit(s: seq<byte>, i: nat)
    requires i < |DecodeAll(s)|
    ensures |DecodeAll(s)[i].payload| <= |s|
    decreases |s|
  {
    if i > 0 {
      PayloadsFit(s[FrameSize(s)..], i - 1);
    }
  }
}
