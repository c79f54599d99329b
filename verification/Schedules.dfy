/**
  The parser over whole runs: arbitrary chunks, through any of its entry points.
*/
module Schedules {
  import opened Bytes
  import opened Frames
  import opened Streams
  import opened FrameBuffers
  import opened FrameParsers

  /**
    One call: bytes given as a view, or read into the buffer first, where room was made for
    up to `hint` of them. Both may be empty.
  */
  datatype Input = Copied(bytes: seq<byte>) | InPlace(bytes: seq<byte>, hint: nat)

  /** The bytes for which a read makes room. */
  function Room(input: Input): nat
    requires input.InPlace?
  {
    Max(input.hint, |input.bytes|)
  }

  function AllBytes(inputs: seq<Input>): seq<byte> {
    if inputs == [] then [] else AllBytes(inputs[..|inputs| - 1]) + inputs[|inputs| - 1].bytes
  }

  /** The first frame of s, if s holds one, and the bytes after it. */
  function First(s: seq<byte>): Option<Frame> {
    if Complete(s) then Some(Decode(s)) else None
  }

  function AfterFirst(s: seq<byte>): seq<byte> {
    if Complete(s) then s[FrameSize(s)..] else s
  }

  /** The stage and the pointer after an update that leaves s to be looked at. */
  function PlaceAfter(s: seq<byte>): (Stage, nat) {
    if Complete(s) then (Done, FrameSize(s)) else RestingPlace(s)
  }

  function Listed(f: Option<Frame>): seq<Frame> {
    if f.Some? then [f.value] else []
  }

  lemma FirstThenRest(s: seq<byte>)
    ensures Listed(First(s)) + DecodeAll(AfterFirst(s)) == DecodeAll(s)
    ensures Remainder(AfterFirst(s)) == Remainder(s)
    ensures First(s) == None ==> DecodeAll(s) == [] && Remainder(s) == s
    ensures |AfterFirst(s)| + (if First(s) == None then 0 else 2) <= |s|
  {}

  /** What a schedule leaves unread, and what it hands out: at most one frame a call. */
  function UnreadAfter(inputs: seq<Input>): seq<byte> {
    if inputs == [] then []
    else AfterFirst(UnreadAfter(inputs[..|inputs| - 1]) + inputs[|inputs| - 1].bytes)
  }

  function PlaceAfterAll(inputs: seq<Input>): (Stage, nat) {
    if inputs == [] then (FinBit, 0)
    else PlaceAfter(UnreadAfter(inputs[..|inputs| - 1]) + inputs[|inputs| - 1].bytes)
  }

  function FramesAfter(inputs: seq<Input>): seq<Frame> {
    if inputs == [] then []
    else
      var init := inputs[..|inputs| - 1];
      FramesAfter(init) + Listed(First(UnreadAfter(init) + inputs[|inputs| - 1].bytes))
  }

  /** What has been handed out stays right when more bytes arrive. */
  lemma ChunkStep(fs: seq<Frame>, u: seq<byte>, all: seq<byte>, bytes: seq<byte>)
    requires fs + DecodeAll(u) == DecodeAll(all) && Remainder(u) == Remainder(all)
    ensures fs + DecodeAll(u + bytes) == DecodeAll(all + bytes)
    ensures Remainder(u + bytes) == Remainder(all + bytes)
  {
    DecodeAppend(u, bytes);
    DecodeAppend(all, bytes);
    Regroup(fs, DecodeAll(u), DecodeAll(Remainder(u) + bytes));
  }

  /**
    Whatever the chunks: the frames handed out, followed by what the unread bytes decode
    to, are what the whole stream decodes to.
  */
  lemma {:induction false} ChunksDoNotMatter(inputs: seq<Input>)
    ensures FramesAfter(inputs) + DecodeAll(UnreadAfter(inputs)) == DecodeAll(AllBytes(inputs))
    ensures Remainder(UnreadAfter(inputs)) == Remainder(AllBytes(inputs))
  {
    if inputs != [] {
      var init, bytes := inputs[..|inputs| - 1], inputs[|inputs| - 1].bytes;
      var s := UnreadAfter(init) + bytes;
      ChunksDoNotMatter(init);
      ChunkStep(FramesAfter(init), UnreadAfter(init), AllBytes(init), bytes);
      FirstThenRest(s);
      Regroup(FramesAfter(init), Listed(First(s)), DecodeAll(AfterFirst(s)));
    }
  }

  /**
    Every list of frames, printed, cut into any chunks and parsed through any path, comes
    back: the same final bits, opcodes, mask bits and keys, and the same payloads once
    unmasked. Nothing else comes out and nothing is left.
  */
  lemma PrintedFramesComeBack(fs: seq<Frame>, inputs: seq<Input>)
    requires Sendable(fs) && AllBytes(inputs) == EncodeAll(fs)
    ensures UnmaskAll(FramesAfter(inputs) + DecodeAll(UnreadAfter(inputs))) == NormalAll(fs)
    ensures Remainder(UnreadAfter(inputs)) == []
  {
    ChunksDoNotMatter(inputs);
    StreamRoundTrip(fs);
  }

  method FeedCopied(p: FrameParser, bytes: seq<byte>) returns (f: Option<Frame>)
    requires p.Valid() && p.Settled()
    modifies p, p.fb
    ensures p.Valid() && p.Settled() && Fed(p, old(p.Unread()) + bytes, f)
    ensures p.fb.Contents() == old(p.Unread()) + bytes
    ensures |p.fb.buf| == Max(old(|p.fb.buf|), |old(p.Unread())| + |bytes|)
    ensures |p.fb.buf| == old(|p.fb.buf|) ==> p.fb.buf == Written(old(p.fb.buf), 0, old(p.Unread()) + bytes)
  {
    var r := p.UpdateView(bytes);
    if |p.fb.buf| == old(|p.fb.buf|) {
      IsWritten(old(p.fb.buf), p.fb.buf, 0, old(p.Unread()) + bytes);
    }
    f := if r == None then None else Some(Observe(r.value, p.fb.Contents()));
  }

  /** The storage with these bytes written over it from `at` on. */
  function Written(buf: seq<byte>, at: nat, bytes: seq<byte>): (r: seq<byte>)
    ensures |r| == |buf|
  {
    if at + |bytes| <= |buf| then buf[..at] + bytes + buf[at + |bytes|..] else buf
  }

  lemma WrittenAt(buf: seq<byte>, at: nat, bytes: seq<byte>, i: nat)
    requires at + |bytes| <= |buf| && i < |buf|
    ensures Written(buf, at, bytes)[i] == if at <= i < at + |bytes| then bytes[i - at] else buf[i]
  {}

  lemma IsWritten(before: seq<byte>, after: seq<byte>, at: nat, bytes: seq<byte>)
    requires at + |bytes| <= |before| == |after|
    requires after[..at + |bytes|] == before[..at] + bytes
    requires forall i :: at + |bytes| <= i < |after| ==> after[i] == before[i]
    ensures after == Written(before, at, bytes)
  {
    assert after == after[..at + |bytes|] + after[at + |bytes|..];
    assert after[at + |bytes|..] == before[at + |bytes|..];
  }

  /** A read makes room and leaves its bytes behind those in use. */
  method Arrive(fb: FrameBuffer, bytes: seq<byte>, room: nat)
    requires fb.Valid() && room >= |bytes|
    modifies fb
    ensures fb.Valid() && fb.Contents() == old(fb.Contents()) + bytes
    ensures |fb.buf| == Max(old(|fb.buf|), old(fb.ptr) + room)
    ensures |fb.buf| == old(|fb.buf|) ==> fb.buf == Written(old(fb.buf), old(fb.ptr), bytes)
  {
    fb.EnsureExtraSpace(room);
    fb.Receive(bytes);
    if |fb.buf| == old(|fb.buf|) {
      IsWritten(old(fb.buf), fb.buf, old(fb.ptr), bytes);
    }
  }

  method FeedInPlace(p: FrameParser, bytes: seq<byte>, room: nat) returns (f: Option<Frame>)
    requires p.Valid() && p.Settled() && room >= |bytes|
    modifies p, p.fb
    ensures p.Valid() && p.Settled() && Fed(p, old(p.Unread()) + bytes, f)
    ensures p.fb.Contents() == old(p.Unread()) + bytes
    ensures |p.fb.buf| == Max(old(|p.fb.buf|), old(p.fb.ptr) + room)
    ensures |p.fb.buf| == old(|p.fb.buf|) ==>
              p.fb.buf == Written(Written(old(p.fb.buf), old(p.fb.ptr), bytes), 0, old(p.Unread()) + bytes)
  {
    Arrive(p.fb, bytes, room);
    p.Grown(bytes);
    ghost var read := p.fb.buf;
    var r := p.Update(bytes != []);
    if |p.fb.buf| == old(|p.fb.buf|) {
      IsWritten(read, p.fb.buf, 0, old(p.Unread()) + bytes);
    }
    f := if r == None then None else Some(Observe(r.value, p.fb.Contents()));
  }

  /** One call has handed out the first frame of s, if any, and stands where s says. */
  ghost predicate Fed(p: FrameParser, s: seq<byte>, f: Option<Frame>)
    requires p.Valid()
    reads p, p.fb
  {
    f == First(s) && p.Unread() == AfterFirst(s) && (p.stage, p.ptr) == PlaceAfter(s)
  }

  method Feed(p: FrameParser, input: Input) returns (f: Option<Frame>)
    requires p.Valid() && p.Settled()
    modifies p, p.fb
    ensures p.Valid() && p.Settled() && Fed(p, old(p.Unread()) + input.bytes, f)
  {
    match input
    case Copied(bytes) => f := FeedCopied(p, bytes);
    case InPlace(bytes, _) => f := FeedInPlace(p, bytes, Room(input));
  }

  method FeedAll(p: FrameParser, inputs: seq<Input>) returns (frames: seq<Frame>)
    requires p.Valid() && p.Settled() && p.Unread() == [] && (p.stage, p.ptr) == (FinBit, 0)
    modifies p, p.fb
    ensures p.Valid() && p.Settled()
    ensures p.Unread() == UnreadAfter(inputs) && frames == FramesAfter(inputs)
    ensures (p.stage, p.ptr) == PlaceAfterAll(inputs)
  {
    frames := [];
    for i := 0 to |inputs|
      invariant p.Valid() && p.Settled()
      invariant p.Unread() == UnreadAfter(inputs[..i]) && frames == FramesAfter(inputs[..i])
      invariant (p.stage, p.ptr) == PlaceAfterAll(inputs[..i])
    {
      assert inputs[..i + 1][..i] == inputs[..i];
      var f := Feed(p, inputs[i]);
      frames := frames + Listed(f);
    }
    assert inputs[..|inputs|] == inputs;
  }

  /** The state of a drain: these frames are out, and u is unread. */
  ghost predicate Drained(frames: seq<Frame>, u: seq<byte>, s: seq<byte>) {
    frames + DecodeAll(u) == DecodeAll(s) && Remainder(u) == Remainder(s)
  }

  lemma DrainStep(frames: seq<Frame>, u: seq<byte>, s: seq<byte>)
    requires Drained(frames, u, s)
    ensures Drained(frames + Listed(First(u)), AfterFirst(u), s)
    ensures First(u) != None ==> |AfterFirst(u)| < |u|
    ensures First(u) == None ==> frames == DecodeAll(s) && u == Remainder(s)
  {
    FirstThenRest(u);
    Regroup(frames, Listed(First(u)), DecodeAll(AfterFirst(u)));
  }

  /** Some further bytes, at least one, make exactly one frame of it. */
  predicate StrictPrefixOfFrame(s: seq<byte>) {
    !Complete(s) && Completion(s) != [] && IsFrame(s + Completion(s))
  }

  lemma RestIsPrefix(s: seq<byte>)
    ensures StrictPrefixOfFrame(Remainder(s))
  {
    RemainderIncomplete(s);
    IncompleteIsPrefix(Remainder(s));
  }

  /**
    Empty updates until one returns nothing: every frame that is still in the buffer comes
    out, which takes at most half as many calls as there are bytes.
  */
  method Drain(p: FrameParser) returns (frames: seq<Frame>)
    requires p.Valid() && p.Settled()
    modifies p, p.fb
    ensures p.Valid() && p.Settled()
    ensures frames == DecodeAll(old(p.Unread())) && 2 * |frames| <= |old(p.Unread())|
    ensures p.Unread() == Remainder(old(p.Unread())) && StrictPrefixOfFrame(p.Unread())
  {
    ghost var s := p.Unread();
    frames := [];
    RestIsPrefix(s);
    DecodeCount(s);
    while true
      invariant p.Valid() && p.Settled() && Drained(frames, p.Unread(), s)
      decreases |p.Unread()|
    {
      ghost var u := p.Unread();
      AppendEmpty(u);
      DrainStep(frames, u, s);
      var f := Feed(p, InPlace([], 0));
      if f == None {
        return;
      }
      frames := frames + [f.value];
    }
  }

  /** A new parser over any schedule, drained at the end, yields the frames of the stream. */
  method RunAndDrain(garbage: Raw, inputs: seq<Input>)
    returns (frames: seq<Frame>, drained: seq<Frame>, unread: seq<byte>)
    ensures frames == FramesAfter(inputs)
    ensures frames + drained == DecodeAll(AllBytes(inputs))
    ensures unread == Remainder(AllBytes(inputs)) && StrictPrefixOfFrame(unread)
  {
    var p := new FrameParser(garbage);
    frames := FeedAll(p, inputs);
    ChunksDoNotMatter(inputs);
    drained := Drain(p);
    unread := p.Left();
  }

  /** The same chunks through the copying path or through the zero-copy path. */
  function AllCopied(chunks: seq<seq<byte>>): seq<Input> {
    seq(|chunks|, i requires 0 <= i < |chunks| => Copied(chunks[i]))
  }

  function AllInPlace(chunks: seq<seq<byte>>, hint: nat): seq<Input> {
    seq(|chunks|, i requires 0 <= i < |chunks| => InPlace(chunks[i], hint))
  }

  lemma {:induction false} PathDoesNotMatter(chunks: seq<seq<byte>>, hint: nat)
    ensures FramesAfter(AllCopied(chunks)) == FramesAfter(AllInPlace(chunks, hint))
    ensures UnreadAfter(AllCopied(chunks)) == UnreadAfter(AllInPlace(chunks, hint))
    ensures PlaceAfterAll(AllCopied(chunks)) == PlaceAfterAll(AllInPlace(chunks, hint))
  {
    if chunks != [] {
      var init := chunks[..|chunks| - 1];
      PathDoesNotMatter(init, hint);
      assert AllCopied(chunks)[..|chunks| - 1] == AllCopied(init);
      assert AllInPlace(chunks, hint)[..|chunks| - 1] == AllInPlace(init, hint);
    }
  }

  /**
    Two parsers, with different rubbish in their fields at first: one gets every chunk as
    a view, the other finds it read into the tail of its buffer before compaction. They
    hand out the same frames, keep the same bytes and stop at the same stage and place.
  */
  method TwoPaths(g: Raw, h: Raw, chunks: seq<seq<byte>>, hint: nat)
    returns (copied: seq<Frame>, inPlace: seq<Frame>, restC: seq<byte>, restI: seq<byte>,
             placeC: (Stage, nat), placeI: (Stage, nat))
    ensures copied == inPlace == FramesAfter(AllInPlace(chunks, hint))
    ensures restC == restI == UnreadAfter(AllInPlace(chunks, hint))
    ensures placeC == placeI == PlaceAfterAll(AllInPlace(chunks, hint))
  {
    PathDoesNotMatter(chunks, hint);
    var p := new FrameParser(g);
    copied := FeedAll(p, AllCopied(chunks));
    restC := p.Left();
    placeC := (p.stage, p.ptr);
    var q := new FrameParser(h);
    inPlace := FeedAll(q, AllInPlace(chunks, hint));
    restI := q.Left();
    placeI := (q.stage, q.ptr);
  }

  // ------------------------------------------------------------ how long a payload view lasts

  /** What a reader of a view finds in the storage under it. */
  function ViewBytes(buf: seq<byte>, view: Raw): seq<byte>
    requires view.off + view.len <= |buf|
  {
    buf[view.off..view.off + view.len]
  }

  /** The storage of a parser, how much of it is in use, and what of that is unread. */
  datatype Storage = Storage(buf: seq<byte>, ptr: nat, unread: seq<byte>)

  ghost function StorageOf(p: FrameParser): Storage
    requires p.Valid()
    reads p, p.fb
  {
    Storage(p.fb.buf, p.fb.ptr, p.Unread())
  }

  /** How much storage an update needs, or the read before it. */
  function Needed(st: Storage, input: Input): nat {
    if input.Copied? then |st.unread| + |input.bytes| else st.ptr + Room(input)
  }

  /**
    What an update that fits writes: a read leaves the new bytes behind those in use, and in
    the end the unread and the new bytes are at the front.
  */
  function Overwritten(st: Storage, input: Input): (buf: seq<byte>)
    ensures |buf| == |st.buf|
  {
    Written(if input.InPlace? then Written(st.buf, st.ptr, input.bytes) else st.buf, 0, st.unread + input.bytes)
  }

  function StorageStep(st: Storage, input: Input): Storage {
    var s := st.unread + input.bytes;
    Storage(Overwritten(st, input), |s|, AfterFirst(s))
  }

  function StorageAfter(st: Storage, inputs: seq<Input>): (r: Storage)
    ensures |r.buf| == |st.buf|
  {
    if inputs == [] then st
    else StorageStep(StorageAfter(st, inputs[..|inputs| - 1]), inputs[|inputs| - 1])
  }

  /** None of these updates makes the storage grow. */
  predicate Fits(st: Storage, inputs: seq<Input>) {
    inputs == [] ||
    (&& Fits(st, inputs[..|inputs| - 1])
     && Needed(StorageAfter(st, inputs[..|inputs| - 1]), inputs[|inputs| - 1]) <= |st.buf|)
  }

  /** Wherever an update writes under the view, it writes the bytes of the payload. */
  predicate Spares(st: Storage, input: Input, view: Raw, payload: seq<byte>)
    requires |payload| == view.len
  {
    forall i :: 0 <= i < view.len ==> SparesByte(st, input, view.off + i, payload[i])
  }

  /** If an update writes at x at all, what stays there in the end is b. */
  predicate SparesByte(st: Storage, input: Input, x: nat, b: byte) {
    var s := st.unread + input.bytes;
    if x < |s| then s[x] == b
    else input.InPlace? && st.ptr <= x < st.ptr + |input.bytes| ==> input.bytes[x - st.ptr] == b
  }

  /** Every one of these updates spares the view. */
  predicate AllSpare(st: Storage, inputs: seq<Input>, view: Raw, payload: seq<byte>)
    requires |payload| == view.len
  {
    inputs == [] ||
    (&& AllSpare(st, inputs[..|inputs| - 1], view, payload)
     && Spares(StorageAfter(st, inputs[..|inputs| - 1]), inputs[|inputs| - 1], view, payload))
  }

  /** For a view behind all that an update writes, or one that is in front of a read and behind the rest. */
  lemma SparesWhatIsBehind(st: Storage, input: Input, view: Raw, payload: seq<byte>)
    requires |payload| == view.len && |st.unread + input.bytes| <= view.off
    requires input.Copied? || view.off + view.len <= st.ptr || st.ptr + |input.bytes| <= view.off
    ensures Spares(st, input, view, payload)
  {}

  lemma ViewSpared(st: Storage, input: Input, view: Raw)
    requires view.off + view.len <= |st.buf|
    requires |st.unread + input.bytes| <= |st.buf| && (input.InPlace? ==> st.ptr + |input.bytes| <= |st.buf|)
    ensures ViewBytes(Overwritten(st, input), view) == ViewBytes(st.buf, view)
            <==> Spares(st, input, view, ViewBytes(st.buf, view))
  {
    var p, q := ViewBytes(st.buf, view), ViewBytes(Overwritten(st, input), view);
    forall i | 0 <= i < view.len
      ensures p[i] == q[i] <==> SparesByte(st, input, view.off + i, p[i])
    {
      ByteSpared(st, input, view.off + i);
      assert q[i] == Overwritten(st, input)[view.off + i];
    }
    if Spares(st, input, view, p) {
      assert q == p;
    }
  }

  lemma ByteSpared(st: Storage, input: Input, x: nat)
    requires x < |st.buf|
    requires |st.unread + input.bytes| <= |st.buf| && (input.InPlace? ==> st.ptr + |input.bytes| <= |st.buf|)
    ensures Overwritten(st, input)[x] == st.buf[x] <==> SparesByte(st, input, x, st.buf[x])
  {
    var read := if input.InPlace? then Written(st.buf, st.ptr, input.bytes) else st.buf;
    WrittenAt(read, 0, st.unread + input.bytes, x);
    if input.InPlace? {
      WrittenAt(st.buf, st.ptr, input.bytes, x);
    }
  }

  /** One update, by either path: what becomes of the storage, which grows exactly when it has to. */
  method UpdateStorage(p: FrameParser, input: Input) returns (f: Option<Frame>)
    requires p.Valid() && p.Settled()
    modifies p, p.fb
    ensures p.Valid() && p.Settled()
    ensures |p.fb.buf| == Max(old(|p.fb.buf|), old(Needed(StorageOf(p), input)))
    ensures |p.fb.buf| == old(|p.fb.buf|) ==> StorageOf(p) == old(StorageStep(StorageOf(p), input))
    ensures |p.fb.buf| == old(|p.fb.buf|) ==> |old(p.Unread()) + input.bytes| <= |p.fb.buf|
  {
    match input
    case Copied(bytes) => f := FeedCopied(p, bytes);
    case InPlace(bytes, _) => f := FeedInPlace(p, bytes, Room(input));
  }

  /**
    One update makes the storage grow exactly when what it needs does not fit; then the
    storage may move, and a view into it may dangle. Otherwise any view still reads what it
    read before exactly when the update spares it.
  */
  method UpdateUnderView(p: FrameParser, input: Input, view: Raw) returns (f: Option<Frame>)
    requires p.Valid() && p.Settled() && view.off + view.len <= |p.fb.buf|
    modifies p, p.fb
    ensures p.Valid() && p.Settled()
    ensures |p.fb.buf| == Max(old(|p.fb.buf|), old(Needed(StorageOf(p), input)))
    ensures |p.fb.buf| == old(|p.fb.buf|) ==> StorageOf(p) == old(StorageStep(StorageOf(p), input))
    ensures |p.fb.buf| == old(|p.fb.buf|) ==>
              (ViewBytes(p.fb.buf, view) == old(ViewBytes(p.fb.buf, view))
               <==> old(Spares(StorageOf(p), input, view, ViewBytes(p.fb.buf, view))))
  {
    ghost var st := StorageOf(p);
    f := UpdateStorage(p, input);
    if |p.fb.buf| == |st.buf| {
      ViewSpared(st, input, view);
    }
  }

  /**
    Any number of updates, such as those of a handler that polls: the view reads its payload
    after each of them if and only if each spares it, provided that everything fits.
  */
  method UpdatesUnderView(p: FrameParser, inputs: seq<Input>, view: Raw) returns (intact: bool)
    requires p.Valid() && p.Settled() && view.off + view.len <= |p.fb.buf|
    modifies p, p.fb
    ensures p.Valid() && p.Settled()
    ensures |p.fb.buf| == old(|p.fb.buf|) <==> old(Fits(StorageOf(p), inputs))
    ensures |p.fb.buf| == old(|p.fb.buf|) ==> StorageOf(p) == old(StorageAfter(StorageOf(p), inputs))
    ensures |p.fb.buf| == old(|p.fb.buf|) ==>
              (intact <==> old(AllSpare(StorageOf(p), inputs, view, ViewBytes(p.fb.buf, view))))
    ensures |p.fb.buf| == old(|p.fb.buf|) && intact ==> ViewBytes(p.fb.buf, view) == old(ViewBytes(p.fb.buf, view))
  {
    ghost var st, payload := StorageOf(p), ViewBytes(p.fb.buf, view);
    intact := true;
    var was := p.fb.buf[view.off..view.off + view.len];
    for i := 0 to |inputs|
      invariant p.Valid() && p.Settled() && |p.fb.buf| >= |st.buf| && was == payload
      invariant |p.fb.buf| == |st.buf| <==> Fits(st, inputs[..i])
      invariant |p.fb.buf| == |st.buf| ==> StorageOf(p) == StorageAfter(st, inputs[..i])
      invariant |p.fb.buf| == |st.buf| ==>
                  (intact <==> AllSpare(st, inputs[..i], view, payload))
      invariant |p.fb.buf| == |st.buf| && intact ==> ViewBytes(p.fb.buf, view) == payload
    {
      assert inputs[..i + 1][..i] == inputs[..i];
      var f := UpdateUnderView(p, inputs[i], view);
      intact := intact && p.fb.buf[view.off..view.off + view.len] == was;
    }
    assert inputs[..|inputs|] == inputs;
  }

  /** Two unmasked text frames, with payloads `a` and `b`. */
  function TwoFrames(): (s: seq<byte>)
    ensures Complete(s) && HeaderSize(s) == 2 && PayloadLength(s) == 1
    ensures AfterFirst(s) == [129, 1, 98]
  {
    [129, 1, 97, 129, 1, 98]
  }

  /**
    The documentation says that a payload is valid for the duration of the handler call.
    A handler that polls ends that sooner: here the payload `a` turns into `b` under its
    view, with an update that brings no new data.
  */
  method StaleView(garbage: Raw) returns (before: seq<byte>, after: seq<byte>)
    ensures before == [97] && after == [98]
  {
    var p := new FrameParser(garbage);
    var view := TwoArrive(p);
    before := p.fb.Contents()[view.off..view.off + view.len];
    var r := p.Update(false);
    after := p.fb.Contents()[view.off..view.off + view.len];
  }

  method TwoArrive(p: FrameParser) returns (view: Raw)
    requires p.Valid() && p.Settled() && p.Unread() == []
    modifies p, p.fb
    ensures p.Valid() && p.Settled()
    ensures p.fb.Contents() == TwoFrames() && p.Unread() == AfterFirst(TwoFrames())
    ensures view.off == 2 && view.len == 1
  {
    assert [] + TwoFrames() == TwoFrames();
    var r := p.UpdateView(TwoFrames());
    view := r.value;
  }
}
