/**
  What every legal history means in the literal numbers of the protocol (section 5.2 of
  RFC 6455): which handler gets which frame, what is done about each opcode, and which bytes
  go out for which reason.
*/
module Conformance {
  import opened Bytes
  import opened Frames
  import opened Wire
  import opened Calls
  import opened Trace

  // ------------------------------------------------------------ what happens next

  /** What has to be done about a frame, by its opcode. */
  predicate Answers(f: Frame, e: Event) {
    match f.opcode
    case 0x1 => e == OnData(OnText, f)
    case 0x2 => e == OnData(OnBinary, f)
    case 0x8 => e == ServerClosed
    case 0x9 =>
      || (e.Wrote? && Begins(e, 0x8A) && e.frame.payload == f.payload && |f.payload| <= 125)
      || (e == Refused(0xA, f.payload) && |f.payload| > 125)
    case 0xA => e.PongAt?
    case _ => e == OnData(OnContinuation, f)
  }

  /** The frame goes out final and masked, with this as its first byte. */
  predicate Begins(e: Event, b: byte)
    requires e.Wrote?
  {
    && e.frame.fin && e.frame.mask && |Encode(e.frame)| >= 2
    && Encode(e.frame)[0] == b && Encode(e.frame)[1] >= 0x80
  }

  /** What an event leaves to be done at once. */
  predicate Follows(e: Event, next: Event) {
    && (e.Dispatched? ==> Answers(e.frame, next))
    && (e.Called? && e.op.SendText? ==>
          next.Wrote? && Begins(next, 0x81) && next.frame.payload == e.op.payload)
    && (e.Called? && e.op.SendBinary? ==>
          next.Wrote? && Begins(next, 0x82) && next.frame.payload == e.op.payload)
    && (e.ServerClosed? ==> next.Wrote? && Begins(next, 0x88) && next.frame.payload == [])
    && (e.Started? || (e.Tick? && e.action == SendPing) ==>
          next.Wrote? && Begins(next, 0x89) && next.frame.payload == [])
  }

  /** Why an event can have happened: what must have come just before it. */
  predicate HasReason(prev: Event, e: Event) {
    && (e.OnData? ==> prev == Dispatched(e.frame))
    && (e.PongAt? ==> prev.Dispatched? && prev.frame.opcode == 0xA)
    && (e.ServerClosed? ==> prev.Dispatched? && prev.frame.opcode == 0x8)
    && (e.ClientClosed? ==> prev.Wrote? && prev.ok && Begins(prev, 0x88) && prev.frame.payload == [])
    && (e.Refused? ==> prev.Dispatched? && prev.frame.opcode == 0x9 && prev.frame.payload == e.payload)
    && (e.Wrote? ==> HasCause(prev, e))
  }

  /** A frame goes out because it was asked for, as an answer, or as a ping or close of our own. */
  predicate HasCause(prev: Event, e: Event)
    requires e.Wrote?
  {
    || (Begins(e, 0x81) && prev == Called(SendText(e.frame.payload)))
    || (Begins(e, 0x82) && prev == Called(SendBinary(e.frame.payload)))
    || (Begins(e, 0x8A) && prev.Dispatched? && prev.frame.opcode == 0x9 && prev.frame.payload == e.frame.payload)
    || (Begins(e, 0x89) && e.frame.payload == [] && (prev.Started? || (prev.Tick? && prev.action == SendPing)))
    || (Begins(e, 0x88) && e.frame.payload == [])
  }

  // ------------------------------------------------------------ what is due is what came last

  /** The event that makes something due. */
  predicate MakesDue(e: Event, due: Due) {
    match due
    case Act(f) => e == Dispatched(f)
    case Ask(q) => e.Called? && IsSend(e.op) && q == Asked1(e.op)
    case Pinging => e.Started? || (e.Tick? && e.action == SendPing)
    case Replying => e.ServerClosed?
    case Leaving => e.Wrote? && e.ok && e.frame.opcode == CLOSE && e.frame.payload == []
    case _ => true
  }

  lemma DueStep(cfg: Config, m: Summary, e: Event)
    requires Admissible(cfg, m, e)
    ensures MakesDue(e, Next(m, e).due)
    ensures e.Dispatched? ==> Next(m, e).due == Act(e.frame)
    ensures e.Called? && IsSend(e.op) ==> Next(m, e).due == Ask(Asked1(e.op))
    ensures e.ServerClosed? ==> Next(m, e).due == Replying
    ensures e.Started? || (e.Tick? && e.action == SendPing) ==> Next(m, e).due == Pinging
  {}

  /** A frame of any of these kinds is printed with this first byte. */
  lemma FirstByteOf(cfg: Config, m: Summary, e: Event, b: byte)
    requires Admissible(cfg, m, e) && e.Wrote? && e.frame.opcode < 16 && b == 0x80 + e.frame.opcode
    ensures Begins(e, b)
  {
    EncodeLaid(e.frame);
  }

  lemma WriteBegins(cfg: Config, m: Summary, e: Event)
    requires Admissible(cfg, m, e) && e.Wrote?
    ensures match m.due
            case Act(f) =>
              f.opcode == 0x9 && Begins(e, 0x8A) && e.frame.payload == f.payload && |f.payload| <= 125
            case Ask(q) =>
              && q == Request(e.frame.opcode, e.frame.payload)
              && ((q.opcode == 0x1 && Begins(e, 0x81)) || (q.opcode == 0x2 && Begins(e, 0x82)))
            case Pinging => Begins(e, 0x89) && e.frame.payload == []
            case Replying => Begins(e, 0x88) && e.frame.payload == []
            case Clear => Begins(e, 0x88) && e.frame.payload == []
            case _ => false
  {
    var b := 0x80 + e.frame.opcode;
    FirstByteOf(cfg, m, e, b);
  }

  lemma ActAnswers(cfg: Config, m: Summary, e: Event)
    requires Admissible(cfg, m, e) && m.due.Act?
    ensures Answers(m.due.frame, e)
  {
    if e.Wrote? {
      WriteBegins(cfg, m, e);
    }
  }

  /** What a send asks for, in literal opcodes. */
  lemma AskedOpcodes(op: Op)
    requires IsSend(op)
    ensures op.SendText? ==> Asked1(op) == Request(0x1, op.payload)
    ensures op.SendBinary? ==> Asked1(op) == Request(0x2, op.payload)
  {}

  lemma NextFollows(cfg: Config, m: Summary, e: Event, next: Event)
    requires Admissible(cfg, m, e) && Admissible(cfg, Next(m, e), next)
    ensures Follows(e, next)
  {
    var n := Next(m, e);
    DueStep(cfg, m, e);
    if next.Wrote? {
      WriteBegins(cfg, n, next);
    }
    if e.Dispatched? {
      ActAnswers(cfg, n, next);
    }
    if e.Called? && IsSend(e.op) {
      AskedOpcodes(e.op);
    }
  }

  lemma PrevReason(cfg: Config, m: Summary, e: Event, next: Event)
    requires Admissible(cfg, m, e) && Admissible(cfg, Next(m, e), next)
    ensures HasReason(e, next)
  {
    var n := Next(m, e);
    DueStep(cfg, m, e);
    if next.Wrote? {
      WriteBegins(cfg, n, next);
    }
    if e.Wrote? {
      WriteBegins(cfg, m, e);
    }
    if e.Called? && IsSend(e.op) {
      AskedOpcodes(e.op);
    }
  }

  // ------------------------------------------------------------ whole histories

  /** Every event is followed by what it asks for, and happens for a reason. */
  ghost predicate Conforms(log: seq<Event>) {
    forall k :: 0 < k < |log| ==> Follows(log[k - 1], log[k]) && HasReason(log[k - 1], log[k])
  }

  /** Nothing is left to be done. */
  predicate NothingOwed(e: Event) {
    && !e.Dispatched? && !e.ServerClosed? && !e.Started? && !e.OnData?
    && !(e.Called? && IsSend(e.op)) && !(e.Tick? && e.action == SendPing)
  }

  /**
    Every legal history conforms: each frame dispatched gets what its opcode asks for, each
    text, binary, ping, pong and close frame goes out for its own reason and with its own first
    byte, and handlers get the frames of their kind.
  */
  lemma LegalConforms(cfg: Config, log: seq<Event>)
    requires Legal(cfg, log)
    ensures Conforms(log)
    ensures SummaryOf(log).due.Clear? && log != [] ==> NothingOwed(log[|log| - 1])
  {
    forall k | 0 < k < |log|
      ensures Follows(log[k - 1], log[k]) && HasReason(log[k - 1], log[k])
    {
      LegalPrefix(cfg, log, k - 1);
      LegalPrefix(cfg, log, k);
      NextFollows(cfg, SummaryOf(log[..k - 1]), log[k - 1], log[k]);
      PrevReason(cfg, SummaryOf(log[..k - 1]), log[k - 1], log[k]);
    }
    if SummaryOf(log).due.Clear? && log != [] {
      LegalLast(cfg, log);
      DueStep(cfg, SummaryOf(log[..|log| - 1]), log[|log| - 1]);
    }
  }

  /** Which handler is called: text, binary, and everything else that is not a control frame. */
  lemma RightHandler(cfg: Config, log: seq<Event>, k: nat)
    requires Legal(cfg, log) && k < |log| && log[k].OnData?
    ensures var h, op := log[k].handler, log[k].frame.opcode;
            && (h == OnText <==> op == 0x1) && (h == OnBinary <==> op == 0x2)
            && (h == OnContinuation <==> op !in {0x1, 0x2}) && op !in {0x8, 0x9, 0xA}
    ensures k > 0 && log[k - 1] == Dispatched(log[k].frame)
  {
    LegalPrefix(cfg, log, k);
    LegalConforms(cfg, log);
    assert Follows(log[k - 1], log[k]) && HasReason(log[k - 1], log[k]);
  }
}
