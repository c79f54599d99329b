/**
  The resumable frame parser: nine stages over a buffer that is filled in arbitrary
  chunks and compacted in place. Each stage has a meaning in terms of the pure decoding
  in Frames.dfy, and `update` is proved to yield exactly the frames of the stream.
*/
module FrameParsers {
  import opened Bytes
  import opened Frames
  import opened Streams
  import opened FrameBuffers

  datatype Option<+T> = None | Some(value: T)

  datatype Stage =
    | FinBit | OpcodeBits | MaskBit | PayloadLen | Extended16 | Extended64
    | MaskingKey | PayloadData | Done

  function Rank(st: Stage): nat {
    match st
    case FinBit => 0
    case OpcodeBits => 1
    case MaskBit => 2
    case PayloadLen => 3
    case Extended16 => 4
    case Extended64 => 5
    case MaskingKey => 6
    case PayloadData => 7
    case Done => 8
  }

  /** A parsed frame as the parser hands it out: the payload is a view into its buffer. */
  datatype Raw = Raw(fin: bool, opcode: byte, mask: bool, key: Key, off: nat, len: nat)

  const BLANK := Raw(false, CONTINUATION, false, ZERO_KEY, 0, 0)

  /** The frame that a reader of the view sees while the buffer holds s. */
  function Observe(raw: Raw, s: seq<byte>): Frame
    requires raw.off + raw.len <= |s|
  {
    Frame(raw.fin, raw.opcode, raw.mask, if raw.mask then raw.key else ZERO_KEY,
          s[raw.off..raw.off + raw.len])
  }

  // ------------------------------------------------------------ what each stage means

  predicate FirstByteRead(raw: Raw, s: seq<byte>) {
    |s| >= 1 && raw.fin == HighBit(s[0]) && raw.opcode == Low4(s[0])
  }

  predicate TwoBytesRead(raw: Raw, s: seq<byte>) {
    |s| >= 2 && FirstByteRead(raw, s) && raw.mask == HighBit(s[1])
  }

  /**
    The fields agree with the bytes s that start at a frame boundary: `ptr` header bytes
    are consumed and the captured fields are what those bytes say.
  */
  predicate Rep(st: Stage, raw: Raw, plen: nat, ptr: nat, s: seq<byte>) {
    && ptr <= |s|
    && (st != Done ==> raw.off == raw.len == 0)
    && match st
       case FinBit => ptr == 0
       case OpcodeBits => ptr == 0 && |s| >= 1 && raw.fin == HighBit(s[0])
       case MaskBit => ptr == 1 && FirstByteRead(raw, s)
       case PayloadLen => ptr == 1 && TwoBytesRead(raw, s)
       case Extended16 => ptr == 2 && TwoBytesRead(raw, s) && ExtraLength(s[1]) == 2
       case Extended64 => ptr == 2 && TwoBytesRead(raw, s) && ExtraLength(s[1]) == 8
       case MaskingKey =>
         && TwoBytesRead(raw, s) && raw.mask
         && ptr == 2 + ExtraLength(s[1]) && plen == PayloadLength(s)
       case PayloadData =>
         && TwoBytesRead(raw, s) && HasHeader(s)
         && ptr == HeaderSize(s) && plen == PayloadLength(s)
         && (raw.mask ==> raw.key == KeyField(s))
       case Done =>
         && TwoBytesRead(raw, s) && Complete(s)
         && ptr == FrameSize(s)
         && (raw.mask ==> raw.key == KeyField(s))
         && raw.len == PayloadLength(s)
         && raw.off == if raw.len == 0 then 0 else HeaderSize(s)
  }

  /** The stage cannot advance on the bytes that are left. */
  predicate Stuck(st: Stage, plen: nat, left: nat) {
    match st
    case Extended16 => left < 2
    case Extended64 => left < 8
    case MaskingKey => left < 4
    case PayloadData => left < plen
    case Done => false
    case _ => left == 0
  }

  /** Where the parser rests on bytes that hold no whole frame: a stage and a pointer. */
  function RestingPlace(s: seq<byte>): (Stage, nat) {
    if s == [] then (FinBit, 0)
    else if |s| == 1 then (MaskBit, 1)
    else
      var e := ExtraLength(s[1]);
      if |s| < 2 + e then (if e == 2 then Extended16 else Extended64, 2)
      else if |s| < HeaderSize(s) then (MaskingKey, 2 + e)
      else (PayloadData, HeaderSize(s))
  }

  /** More bytes behind the ones consumed leave the meaning of the fields alone. */
  lemma RepAppend(st: Stage, raw: Raw, plen: nat, ptr: nat, s: seq<byte>, t: seq<byte>)
    requires Rep(st, raw, plen, ptr, s)
    ensures Rep(st, raw, plen, ptr, s + t)
  {
    if HasHeader(s) {
      PrefixHeader(s, t);
    } else if st == MaskingKey {
      assert (s + t)[2..ptr] == s[2..ptr];
    }
  }

  /** A parser that cannot advance has no whole frame, and the bytes alone say where it is. */
  lemma StuckIncomplete(st: Stage, raw: Raw, plen: nat, ptr: nat, s: seq<byte>)
    requires Rep(st, raw, plen, ptr, s) && Stuck(st, plen, |s| - ptr)
    ensures !Complete(s) && (st, ptr) == RestingPlace(s)
  {
  }

  /** In the last stage the view is exactly the decoded frame. */
  lemma DoneObserves(raw: Raw, plen: nat, ptr: nat, s: seq<byte>)
    requires Rep(Done, raw, plen, ptr, s)
    ensures raw.off + raw.len <= ptr && Observe(raw, s) == Decode(s)
  {
    if raw.len == 0 {
      assert s[raw.off..raw.off] == s[HeaderSize(s)..FrameSize(s)];
    }
  }

  // ------------------------------------------------------------ the parser

  class FrameParser {
    const fb: FrameBuffer
    var stage: Stage
    var raw: Raw
    var payloadLen: nat
    var ptr: nat

    /** How much of the buffer the last parse has seen. */
    ghost var seen: nat
    /** The bytes of the frames handed out since the last clear, and those frames. */
    ghost var consumed: seq<byte>
    ghost var emitted: seq<Frame>

    /** The four fields that parsing works on. */
    ghost function Now(): (Stage, Raw, nat, nat)
      reads this
    {
      (stage, raw, payloadLen, ptr)
    }

    ghost predicate InStep()
      reads this, fb
    {
      fb.Valid() && Rep(stage, raw, payloadLen, ptr, fb.Contents())
    }

    /** What holds between calls; the buffer may hold bytes that no parse has seen yet. */
    ghost predicate Valid()
      reads this, fb
    {
      && fb.Valid()
      && ptr <= seen <= fb.ptr
      && (forall k :: Asked(AboutParser, k) ==> InvariantFor(fb.Contents()[..seen]))
    }

    /** What the fields say about the bytes that have been parsed, and about those before. */
    ghost predicate InvariantFor(s: seq<byte>)
      requires ptr <= |s|
      reads this
    {
      && Rep(stage, raw, payloadLen, ptr, s)
      && (stage == Done || Stuck(stage, payloadLen, |s| - ptr))
      && DecodeAll(consumed) == emitted
      && Remainder(consumed) == []
    }

    /** The bytes that no frame handed out so far has used. */
    ghost function Unread(): seq<byte>
      requires Valid()
      reads this, fb
    {
      if stage == Done then fb.Contents()[ptr..] else fb.Contents()
    }

    /** All bytes taken in since the last clear. */
    ghost function Accepted(): seq<byte>
      requires Valid()
      reads this, fb
    {
      consumed + Unread()
    }

    /** Every byte in the buffer has been looked at. */
    ghost predicate Settled()
      reads this, fb
    {
      seen == fb.ptr
    }

    /** The source leaves the frame fields of a new parser uninitialised, except the view. */
    constructor (garbage: Raw)
      ensures Valid() && Settled() && fresh(fb)
      ensures consumed == [] && emitted == [] && Accepted() == []
      ensures stage == FinBit && ptr == 0 && |fb.buf| == 4096
    {
      fb := new FrameBuffer();
      stage, raw, payloadLen, ptr := FinBit, garbage.(off := 0, len := 0), 0, 0;
      seen, consumed, emitted := 0, [], [];
    }

    function Remaining(): nat
      requires fb.Valid() && ptr <= fb.ptr
      reads this, fb
    {
      fb.ptr - ptr
    }

    function Read(): byte
      requires fb.Valid() && ptr < fb.ptr
      reads this, fb
    {
      fb.buf[ptr]
    }

    method Consume() returns (b: byte)
      requires fb.Valid() && ptr < fb.ptr
      modifies this`ptr
      ensures b == fb.Contents()[old(ptr)] && ptr == old(ptr) + 1
    {
      b := Read();
      ptr := ptr + 1;
    }

    method CheckFinBit()
      requires InStep()
      modifies this`stage, this`raw
      ensures InStep()
      ensures old(stage) != FinBit ==> Now() == old(Now())
      ensures stage == FinBit ==> Now() == old(Now()) && Stuck(stage, payloadLen, Remaining())
    {
      if stage != FinBit || Remaining() == 0 {
        return;
      }
      raw := raw.(fin := HighBit(Read()));
      stage := OpcodeBits;
    }

    method CheckOpcode()
      requires InStep()
      modifies this`stage, this`raw, this`ptr
      ensures InStep()
      ensures old(stage) != OpcodeBits ==> Now() == old(Now())
      ensures old(stage) == OpcodeBits ==> stage == MaskBit
    {
      if stage != OpcodeBits || Remaining() == 0 {
        return;
      }
      var b := Consume();
      raw := raw.(opcode := Low4(b));
      stage := MaskBit;
    }

    method CheckMaskBit()
      requires InStep()
      modifies this`stage, this`raw
      ensures InStep()
      ensures old(stage) != MaskBit ==> Now() == old(Now())
      ensures stage == MaskBit ==> Now() == old(Now()) && Stuck(stage, payloadLen, Remaining())
      ensures old(stage) == MaskBit && stage != MaskBit ==> stage == PayloadLen
    {
      if stage != MaskBit || Remaining() == 0 {
        return;
      }
      raw := raw.(mask := HighBit(Read()));
      stage := PayloadLen;
    }

    method CheckPayloadLen()
      requires InStep()
      modifies this`stage, this`payloadLen, this`ptr
      ensures InStep()
      ensures old(stage) != PayloadLen ==> Now() == old(Now())
      ensures old(stage) == PayloadLen ==> Rank(stage) > Rank(PayloadLen) && stage != Done
    {
      if stage != PayloadLen || Remaining() == 0 {
        return;
      }
      var b := Consume();
      var len := Low7(b);
      if len == 126 {
        stage := Extended16;
        return;
      }
      if len == 127 {
        stage := Extended64;
        return;
      }
      payloadLen := len;
      stage := if raw.mask then MaskingKey else PayloadData;
    }

    method CheckExtended16()
      requires InStep()
      modifies this`stage, this`payloadLen, this`ptr
      ensures InStep()
      ensures old(stage) != Extended16 ==> Now() == old(Now())
      ensures stage == Extended16 ==> Now() == old(Now()) && Stuck(stage, payloadLen, Remaining())
      ensures old(stage) == Extended16 && stage != Extended16 ==> stage in {MaskingKey, PayloadData}
    {
      if stage != Extended16 || Remaining() < 2 {
        return;
      }
      var left: int := Consume();
      var right: int := Consume();
      ghost var s := fb.Contents();
      payloadLen := left * 256 + right;
      assert s[2..4] == [left, right];
      TwoByteLength(s[2..4]);
      stage := if raw.mask then MaskingKey else PayloadData;
    }

    method CheckExtended64()
      requires InStep()
      modifies this`stage, this`payloadLen, this`ptr
      ensures InStep()
      ensures old(stage) != Extended64 ==> Now() == old(Now())
      ensures stage == Extended64 ==> Now() == old(Now()) && Stuck(stage, payloadLen, Remaining())
      ensures old(stage) == Extended64 && stage != Extended64 ==> stage in {MaskingKey, PayloadData}
    {
      if stage != Extended64 || Remaining() < 8 {
        return;
      }
      ReadLength64();
      stage := if raw.mask then MaskingKey else PayloadData;
    }

    /** Eight bytes, the first shifted furthest; the shifted bytes share no bits, so or is plus. */
    method ReadLength64()
      requires fb.Valid() && ptr + 8 <= fb.ptr
      modifies this`payloadLen, this`ptr
      ensures ptr == old(ptr) + 8
      ensures payloadLen == BigEndian(fb.Contents()[old(ptr)..ptr])
    {
      ghost var s, end := fb.Contents(), ptr + 8;
      payloadLen := 0;
      var i := 8;
      while i > 0
        invariant 0 <= i <= 8 && ptr == end - i
        invariant payloadLen + BigEndian(s[ptr..end]) == BigEndian(s[end - 8..end])
      {
        i := i - 1;
        BigEndianStep(s, ptr, end);
        var b := Consume();
        payloadLen := payloadLen + ShiftLeft(b, i);
      }
    }

    method CheckMaskingKey()
      requires InStep()
      modifies this`stage, this`raw, this`ptr
      ensures InStep()
      ensures old(stage) != MaskingKey ==> Now() == old(Now())
      ensures stage == MaskingKey ==> Now() == old(Now()) && Stuck(stage, payloadLen, Remaining())
      ensures old(stage) == MaskingKey && stage != MaskingKey ==> stage == PayloadData
    {
      if stage != MaskingKey || Remaining() < 4 {
        return;
      }
      ghost var s, start := fb.Contents(), ptr;
      var i := 0;
      while i < 4
        invariant 0 <= i <= 4 && ptr == start + i && stage == MaskingKey
        invariant raw == old(raw).(key := raw.key)
        invariant forall k :: 0 <= k < i ==> raw.key[k] == s[start + k]
      {
        var b := Consume();
        raw := raw.(key := raw.key[i := b]);
        i := i + 1;
      }
      assert raw.key == s[start..start + 4];
      stage := PayloadData;
    }

    method CheckPayloadData()
      requires InStep()
      modifies this`stage, this`raw, this`ptr
      ensures InStep()
      ensures old(stage) != PayloadData ==> Now() == old(Now())
      ensures stage == PayloadData ==> Now() == old(Now()) && Stuck(stage, payloadLen, Remaining())
      ensures old(stage) == PayloadData && stage != PayloadData ==> stage == Done
    {
      if stage != PayloadData || Remaining() < payloadLen {
        return;
      }
      if payloadLen == 0 {
        stage := Done;
        return;
      }
      raw := raw.(off := ptr, len := payloadLen);
      ptr := ptr + payloadLen;
      stage := Done;
    }

    /** The first four checks, which read the two bytes that every frame has. */
    method ParseFixedPart()
      requires InStep()
      modifies this`stage, this`raw, this`payloadLen, this`ptr
      ensures InStep()
      ensures stage !in {OpcodeBits, PayloadLen}
      ensures stage in {FinBit, MaskBit} ==> Stuck(stage, payloadLen, Remaining())
      ensures old(Rank(stage)) > Rank(PayloadLen) ==> Now() == old(Now())
      ensures old(stage in {FinBit, MaskBit} && Stuck(stage, payloadLen, Remaining()))
              ==> Now() == old(Now())
    {
      CheckFinBit();
      CheckOpcode();
      CheckMaskBit();
      CheckPayloadLen();
    }

    /** The two checks for a length that does not fit in seven bits. */
    method ParseExtendedLength()
      requires InStep()
      modifies this`stage, this`payloadLen, this`ptr
      ensures InStep()
      ensures old(stage) !in {Extended16, Extended64} ==> Now() == old(Now())
      ensures stage in {Extended16, Extended64} ==>
                Now() == old(Now()) && Stuck(stage, payloadLen, Remaining())
      ensures old(stage) in {Extended16, Extended64} ==>
                stage in {Extended16, Extended64, MaskingKey, PayloadData}
    {
      CheckExtended16();
      CheckExtended64();
    }

    /** The last two checks. */
    method ParseKeyAndPayload()
      requires InStep()
      modifies this`stage, this`raw, this`ptr
      ensures InStep()
      ensures old(stage) !in {MaskingKey, PayloadData} ==> Now() == old(Now())
      ensures old(stage) in {MaskingKey, PayloadData} ==> stage in {MaskingKey, PayloadData, Done}
      ensures stage in {MaskingKey, PayloadData} ==> Stuck(stage, payloadLen, Remaining())
      ensures old(Stuck(stage, payloadLen, Remaining())) ==> Now() == old(Now())
    {
      CheckMaskingKey();
      CheckPayloadData();
    }

    /** The last four checks. */
    method ParseVariablePart()
      requires InStep()
      modifies this`stage, this`raw, this`payloadLen, this`ptr
      ensures InStep()
      ensures old(stage) in {FinBit, MaskBit} ==> Now() == old(Now())
      ensures old(stage) in {FinBit, MaskBit, OpcodeBits, PayloadLen} || Halted()
      ensures old(Halted()) ==> Now() == old(Now())
    {
      ParseExtendedLength();
      ParseKeyAndPayload();
    }

    /** No check can do anything, or there is nothing left to do. */
    ghost predicate Halted()
      requires fb.Valid() && ptr <= fb.ptr
      reads this, fb
    {
      stage == Done || Stuck(stage, payloadLen, Remaining())
    }

    /**
      One pass over the eight checks. It ends in the last stage or where no check can
      advance, and from such a state a further pass changes nothing.
    */
    method Parse() returns (r: Option<Raw>)
      requires InStep()
      modifies this`stage, this`raw, this`payloadLen, this`ptr
      ensures InStep() && Halted()
      ensures r == if stage == Done then Some(raw) else None
      ensures old(Halted()) ==> Now() == old(Now())
    {
      ParseFixedPart();
      ParseVariablePart();
      if stage != Done {
        return None;
      }
      return Some(raw);
    }

    /** Drops the frame just handed out and moves the bytes behind it to the front. */
    method Reset()
      requires InStep()
      modifies this`stage, this`raw, this`payloadLen, this`ptr, fb
      ensures InStep() && fb.Contents() == old(fb.Contents()[ptr..])
      ensures Now() == (FinBit, BLANK, 0, 0)
      ensures fb.TailKept() && |fb.buf| == old(|fb.buf|)
    {
      if Remaining() > 0 {
        fb.Compact(ptr);
        ptr := 0;
      } else {
        fb.Reset();
        ptr := 0;
      }
      raw := BLANK;
      payloadLen := 0;
      stage := FinBit;
    }

    /** Forgets everything, wherever the parser stands. */
    method Clear()
      requires Valid()
      modifies this, fb
      ensures Valid() && Settled()
      ensures consumed == [] && emitted == [] && Accepted() == []
    {
      fb.Reset();
      ptr := 0;
      raw := BLANK;
      payloadLen := 0;
      stage := FinBit;
      seen, consumed, emitted := 0, [], [];
    }

    /**
      The outcome of parsing the unread bytes s: the first frame of s if it has one, and
      in any case a state that s alone determines.
    */
    ghost predicate Yields(s: seq<byte>, r: Option<Raw>)
      reads this, fb
    {
      && fb.Valid() && fb.Contents() == s
      && r == (if stage == Done then Some(raw) else None)
      && (stage == Done <==> Complete(s))
      && if Complete(s) then
           && ptr == FrameSize(s) && raw.off + raw.len <= ptr && Observe(raw, s) == Decode(s)
           && raw.len == PayloadLength(s) && (raw.len > 0 ==> raw.off == HeaderSize(s))
         else
           (stage, ptr) == RestingPlace(s)
    }

    /** The last two lines of every `update`: nothing to do without bytes, otherwise one pass. */
    method ParseBuffer() returns (r: Option<Raw>)
      requires InStep() && stage != Done
      requires stage == PayloadData ==> payloadLen > 0
      modifies this`stage, this`raw, this`payloadLen, this`ptr
      ensures InStep() && Halted()
      ensures Yields(fb.Contents(), r)
    {
      if Remaining() == 0 {
        r := None;
      } else {
        r := Parse();
      }
      if stage == Done {
        DoneObserves(raw, payloadLen, ptr, fb.Contents());
      } else {
        StuckIncomplete(stage, raw, payloadLen, ptr, fb.Contents());
      }
    }

    /** Book-keeping after a parse: a finished frame moves from the unread to the consumed bytes. */
    ghost method Record()
      requires InStep() && Halted()
      requires DecodeAll(consumed) == emitted && Remainder(consumed) == []
      modifies this`seen, this`consumed, this`emitted
      ensures Valid() && Settled()
      ensures Accepted() == old(consumed) + fb.Contents()
      ensures emitted == old(emitted) + if stage == Done then [Decode(fb.Contents())] else []
    {
      var s := fb.Contents();
      seen := fb.ptr;
      assert s[..seen] == s;
      if stage == Done {
        TakeFrame(consumed, s);
        consumed := consumed + s[..ptr];
        emitted := emitted + [Decode(s)];
      }
    }

    /** One parse of the buffer, with its book-keeping. */
    method Advance() returns (r: Option<Raw>)
      requires InStep() && stage != Done
      requires stage == PayloadData ==> payloadLen > 0
      requires DecodeAll(consumed) == emitted && Remainder(consumed) == []
      modifies this
      ensures Valid() && Settled()
      ensures Yields(fb.Contents(), r)
      ensures Accepted() == old(consumed) + fb.Contents()
      ensures emitted == old(emitted) + if r.Some? then [Observe(r.value, fb.Contents())] else []
    {
      r := ParseBuffer();
      Record();
    }

    /** `if (done()) reset()`: from here on the buffer starts where the unread bytes start. */
    method ResetIfDone()
      requires Valid()
      modifies this`stage, this`raw, this`payloadLen, this`ptr, fb
      ensures InStep() && stage != Done && (stage == PayloadData ==> payloadLen > 0)
      ensures fb.Contents() == old(Unread()) && fb.TailKept() && |fb.buf| == old(|fb.buf|)
      ensures stage == FinBit <==> old(stage) in {FinBit, Done}
      ensures old(stage) != Done ==> Now() == old(Now()) && fb.buf == old(fb.buf) && fb.ptr == old(fb.ptr)
      ensures old(stage) != Done && Settled() ==> Stuck(stage, payloadLen, Remaining())
      ensures DecodeAll(consumed) == emitted && Remainder(consumed) == []
    {
      InStepWhenValid();
      if stage == Done {
        Reset();
      }
    }

    /** Nothing at all has changed. */
    twostate predicate Idle()
      reads this, fb
    {
      && Now() == old(Now()) && seen == old(seen)
      && consumed == old(consumed) && emitted == old(emitted)
      && fb.buf == old(fb.buf) && fb.ptr == old(fb.ptr)
    }

    /** `update` returns early without new data, unless a frame may start here. */
    ghost predicate Looks(newData: bool)
      reads this
    {
      newData || stage in {FinBit, Done}
    }

    method Append(view: seq<byte>)
      requires InStep() && stage != Done
      modifies fb
      ensures InStep() && fb.Contents() == old(fb.Contents()) + view && fb.TailKept()
      ensures |fb.buf| == Max(old(|fb.buf|), old(fb.ptr) + |view|)
    {
      RepAppend(stage, raw, payloadLen, ptr, fb.Contents(), view);
      fb.PushView(view);
    }

    /** `update` on a copy of the new bytes; the two overloads for views do the same. */
    method UpdateView(view: seq<byte>) returns (r: Option<Raw>)
      requires Valid()
      modifies this, fb
      ensures Valid()
      ensures Accepted() == old(Accepted()) + view
      ensures fb.TailKept() && |fb.buf| == Max(old(|fb.buf|), |old(Unread())| + |view|)
      ensures old(Looks(view != []) || Settled()) ==> Settled() && Yields(old(Unread()) + view, r)
      ensures !old(Looks(view != [])) ==> r == None && Idle()
      ensures emitted == old(emitted) + if r.Some? then [Observe(r.value, fb.Contents())] else []
    {
      ghost var s := Unread();
      AppendAssociates(consumed, s, view);
      ResetIfDone();
      if |view| != 0 {
        Append(view);
      } else {
        AppendEmpty(s);
        if stage != FinBit {
          Resting();
          return None;
        }
      }
      assert fb.Contents() == s + view;
      r := Advance();
    }

    /** `update` on bytes that a read has already put into the buffer. */
    method Update(newData: bool) returns (r: Option<Raw>)
      requires Valid()
      modifies this, fb
      ensures Valid()
      ensures Accepted() == old(Accepted()) && fb.TailKept() && |fb.buf| == old(|fb.buf|)
      ensures old(Looks(newData) || Settled()) ==> Settled() && Yields(old(Unread()), r)
      ensures !old(Looks(newData)) ==> r == None && Idle()
      ensures emitted == old(emitted) + if r.Some? then [Observe(r.value, fb.Contents())] else []
    {
      ResetIfDone();
      if !newData && stage != FinBit {
        Resting();
        return None;
      }
      r := Advance();
    }

    /** The early return: nothing is due, because the last pass got as far as it could. */
    lemma Resting()
      requires Valid() && stage != Done
      ensures Settled() ==> Yields(Unread(), None)
    {
      assert Asked(AboutParser, 0);
      if seen == fb.ptr {
        assert fb.Contents()[..seen] == fb.Contents();
        StuckIncomplete(stage, raw, payloadLen, ptr, fb.Contents());
      }
    }

    /** The unread bytes, for an observer. */
    method Left() returns (s: seq<byte>)
      requires Valid()
      ensures s == Unread()
    {
      s := if stage == Done then fb.buf[ptr..fb.ptr] else fb.buf[..fb.ptr];
    }

    /** Bytes read into the buffer behind the parser's back are unread, and nothing else changes. */
    twostate lemma Grown(bytes: seq<byte>)
      requires old(Valid()) && unchanged(this)
      requires fb.Valid() && fb.Contents() == old(fb.Contents()) + bytes
      ensures Valid() && Unread() == old(Unread()) + bytes
      ensures Accepted() == old(Accepted()) + bytes
      ensures bytes == [] ==> Settled() == old(Settled())
    {
      assert fb.Contents()[..seen] == old(fb.Contents())[..seen];
      assert Unread() == old(Unread()) + bytes;
      AppendAssociates(consumed, old(Unread()), bytes);
    }

    /** No byte is lost, no frame repeated: the invariant, read as a statement about streams. */
    lemma EmittedThenUnread()
      requires Valid()
      ensures emitted + DecodeAll(Unread()) == DecodeAll(Accepted())
      ensures Remainder(Unread()) == Remainder(Accepted())
    {
      assert Asked(AboutParser, 0);
      DecodeAppend(consumed, Unread());
      assert [] + Unread() == Unread();
    }

    /** The view of the frame handed out lies within the bytes of that frame. */
    lemma ViewInFrame()
      requires Valid() && stage == Done
      ensures raw.off + raw.len <= ptr
    {
      assert Asked(AboutParser, 0);
      DoneObserves(raw, payloadLen, ptr, fb.Contents()[..seen]);
    }

    lemma InStepWhenValid()
      requires Valid()
      ensures InStep() && (stage == Done || Stuck(stage, payloadLen, seen - ptr))
      ensures DecodeAll(consumed) == emitted && Remainder(consumed) == []
    {
      assert Asked(AboutParser, 0);
      var s := fb.Contents();
      assert s == s[..seen] + s[seen..];
      RepAppend(stage, raw, payloadLen, ptr, s[..seen], s[seen..]);
    }
  }

  lemma TwoByteLength(s: seq<byte>)
    requires |s| == 2
    ensures BigEndian(s) == (s[0] as int) * 256 + s[1]
  {
    assert s[1..][1..] == [];
    assert BigEndian(s[1..]) == s[1] * Weight(0);
    assert Weight(1) == 256;
  }
}
