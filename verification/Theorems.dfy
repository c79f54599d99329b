/**
  What every legal history satisfies, over whole runs: delivery, the ping timer, a dead
  peer, the connection status and the output stream.
*/
module Theorems {
  import opened Bytes
  import opened Frames
  import opened Streams
  import opened RandomKeys
  import opened Sockets
  import opened Trace

  // ------------------------------------------------------------ status

  /** The connection was open once and is not any more. */
  predicate Over(m: Summary) {
    m.conn.status !in {Healthy, Unknown}
  }

  lemma OverStep(cfg: Config, m: Summary, e: Event)
    requires Admissible(cfg, m, e) && Over(m)
    ensures Over(Next(m, e))
  {}

  lemma OverOneMore(cfg: Config, log: seq<Event>, j: nat)
    requires Legal(cfg, log) && j < |log| && Over(SummaryOf(log[..j]))
    ensures Over(SummaryOf(log[..j + 1]))
  {
    LegalPrefix(cfg, log, j);
    OverStep(cfg, SummaryOf(log[..j]), log[j]);
  }

  /** Once the connection has left HEALTHY, it never comes back to it. */
  lemma {:induction false} NeverHealthyAgain(cfg: Config, log: seq<Event>, i: nat, j: nat)
    requires Legal(cfg, log) && i <= j <= |log| && Over(SummaryOf(log[..i]))
    ensures Over(SummaryOf(log[..j]))
    decreases j
  {
    if i < j {
      NeverHealthyAgain(cfg, log, i, j - 1);
      OverOneMore(cfg, log, j - 1);
    }
  }

  /**
    A handler that is called sees the connection before anything else happens: the call is
    followed by a Boundary, and no API call returns before that.
  */
  lemma HandlersLookFirst(cfg: Config, log: seq<Event>, k: nat)
    requires Legal(cfg, log) && SummaryOf(log).due.Clear? && k < |log|
    requires log[k].OnData? || log[k].OnClose? || log[k].Opened?
    ensures k + 1 < |log| && log[k + 1].Boundary?
    ensures log[k + 1].status == SummaryOf(log[..k]).conn.status || log[k].Opened?
  {
    LegalPrefix(cfg, log, k);
    assert log[..|log|] == log;
    LegalPrefix(cfg, log, k + 1);
  }

  /** At every handler call and API return the connection is open exactly when it is HEALTHY. */
  lemma OpenIffHealthy(cfg: Config, log: seq<Event>, k: nat)
    requires Legal(cfg, log) && k < |log| && log[k].Boundary?
    ensures log[k].open <==> log[k].status == Healthy
    ensures log[k].status == SummaryOf(log[..k]).conn.status
  {
    LegalPrefix(cfg, log, k);
  }

  /** Once handlers and callers have seen the connection over, it is never open again. */
  lemma ObserversAgree(cfg: Config, log: seq<Event>, i: nat, j: nat)
    requires Legal(cfg, log) && i < j < |log|
    requires log[i].Boundary? && log[j].Boundary? && log[i].status !in {Healthy, Unknown}
    ensures !log[i].open && !log[j].open && log[j].status !in {Healthy, Unknown}
  {
    LegalPrefix(cfg, log, i);
    LegalPrefix(cfg, log, j);
    NeverHealthyAgain(cfg, log, i, j);
  }

  /** What sets the status. */
  predicate SetsStatus(e: Event) {
    e.Opened? || e.ServerClosed? || e.ClientClosed? || (e.Tick? && e.action == Expire)
  }

  /** The status that such an event stands for. */
  predicate StandsFor(e: Event, s: Status) {
    match s
    case Healthy => e.Opened?
    case ClosedByServer => e.ServerClosed?
    case ClosedByClient => e.ClientClosed?
    case PingTimedOut => e.Tick? && e.action == Expire
    case _ => false
  }

  lemma StatusStep(m: Summary, e: Event)
    ensures SetsStatus(e) ==> StandsFor(e, Next(m, e).conn.status)
    ensures !SetsStatus(e) ==> Next(m, e).conn.status == m.conn.status
  {}

  /** The status says which of the opening, the two closes and the ping timeout came last. */
  lemma {:induction false} StatusMeaning(log: seq<Event>) returns (i: nat)
    ensures if SummaryOf(log).conn.status == Unknown then forall k :: 0 <= k < |log| ==> !SetsStatus(log[k])
            else
              && i < |log| && StandsFor(log[i], SummaryOf(log).conn.status)
              && forall k :: i < k < |log| ==> !SetsStatus(log[k])
  {
    i := 0;
    if log != [] {
      var init, e := log[..|log| - 1], log[|log| - 1];
      i := StatusMeaning(init);
      StatusStep(SummaryOf(init), e);
      if SetsStatus(e) {
        i := |init|;
      }
    }
  }

  // ------------------------------------------------------------ delivery

  function AllReceived(log: seq<Event>): seq<byte> {
    if log == [] then []
    else AllReceived(log[..|log| - 1])
         + if log[|log| - 1].Received? then log[|log| - 1].bytes else []
  }

  function AllDispatched(log: seq<Event>): seq<Frame> {
    if log == [] then []
    else AllDispatched(log[..|log| - 1])
         + if log[|log| - 1].Dispatched? then [log[|log| - 1].frame] else []
  }

  /** What the receive calls from number a up to b deliver. */
  function Span(recvs: seq<Recv>, a: nat, b: nat): seq<byte> {
    if b <= a then [] else Span(recvs, a, b - 1) + BytesOf(ReadResult(recvs, b - 1))
  }

  /** What the first n receive calls deliver. */
  function Delivered(recvs: seq<Recv>, n: nat): seq<byte> {
    Span(recvs, 0, n)
  }

  lemma ReadStep(cfg: Config, m: Summary, e: Event)
    requires Admissible(cfg, m, e)
    ensures var read := e.Received? || e.RecvFailed?;
            && Next(m, e).inb.calls == m.inb.calls + (if read then 1 else 0)
            && (read ==> (if e.Received? then e.bytes else []) == BytesOf(ReadResult(cfg.recvs, m.inb.calls)))
  {}

  /** The bytes that the last event brought, on the tape as in the history. */
  lemma ReadLast(cfg: Config, log: seq<Event>) returns (bytes: seq<byte>)
    requires Legal(cfg, log) && log != []
    ensures AllReceived(log) == AllReceived(log[..|log| - 1]) + bytes
    ensures Delivered(cfg.recvs, SummaryOf(log).inb.calls)
            == Delivered(cfg.recvs, SummaryOf(log[..|log| - 1]).inb.calls) + bytes
  {
    var m, e := SummaryOf(log[..|log| - 1]), log[|log| - 1];
    LegalLast(cfg, log);
    ReadStep(cfg, m, e);
    bytes := if e.Received? then e.bytes else [];
    AppendEmpty(Delivered(cfg.recvs, m.inb.calls));
  }

  /** The bytes received in a run are what the receive calls of the run delivered. */
  lemma {:induction false} ReceivedIsDelivered(cfg: Config, log: seq<Event>)
    requires Legal(cfg, log)
    ensures AllReceived(log) == Delivered(cfg.recvs, SummaryOf(log).inb.calls)
  {
    if log != [] {
      LegalInit(cfg, log);
      ReceivedIsDelivered(cfg, log[..|log| - 1]);
      var bytes := ReadLast(cfg, log);
    }
  }

  /** The number of reads that returned normally. */
  function Reads(log: seq<Event>): nat {
    if log == [] then 0
    else Reads(log[..|log| - 1]) + if log[|log| - 1].Received? then 1 else 0
  }

  lemma ReadsAppend(log: seq<Event>, e: Event)
    ensures Reads(log + [e]) == Reads(log) + if e.Received? then 1 else 0
  {
    assert (log + [e])[..|log|] == log;
  }

  /** A stretch of history in which `close` has not touched the parser. */
  ghost predicate NoClose(log: seq<Event>) {
    forall i :: 0 <= i < |log| ==> !log[i].Cleared? && !log[i].Discarded?
  }

  lemma EmittedStep(cfg: Config, m: Summary, e: Event)
    requires Admissible(cfg, m, e) && m.inb.emitted <= DecodeAll(m.inb.received)
    ensures Next(m, e).inb.emitted <= DecodeAll(Next(m, e).inb.received)
  {
    if e.Received? {
      DecodeMonotone(m.inb.received, e.bytes);
    }
  }

  lemma {:induction false} EmittedInOrder(cfg: Config, log: seq<Event>)
    requires Legal(cfg, log)
    ensures SummaryOf(log).inb.emitted <= DecodeAll(SummaryOf(log).inb.received)
  {
    if log != [] {
      var init, e := log[..|log| - 1], log[|log| - 1];
      LegalLast(cfg, log);
      EmittedInOrder(cfg, init);
      EmittedStep(cfg, SummaryOf(init), e);
    }
  }

  lemma {:induction false} NothingCleared(log: seq<Event>)
    requires NoClose(log)
    ensures SummaryOf(log).inb.received == AllReceived(log)
    ensures SummaryOf(log).inb.emitted == AllDispatched(log)
  {
    if log != [] {
      NothingCleared(log[..|log| - 1]);
    }
  }

  /**
    Delivery: at every point before a close, the frames dispatched are a prefix of the
    decoding of the bytes received, so none is lost, repeated or reordered.
  */
  lemma Delivery(cfg: Config, log: seq<Event>, k: nat)
    requires Legal(cfg, log) && k <= |log| && NoClose(log[..k])
    ensures AllDispatched(log[..k]) <= DecodeAll(AllReceived(log[..k]))
  {
    LegalPrefix(cfg, log, k);
    EmittedInOrder(cfg, log[..k]);
    NothingCleared(log[..k]);
  }

  /** When poll finds nothing to do, every whole frame received has been dispatched. */
  lemma NothingLeftBehind(cfg: Config, log: seq<Event>, k: nat)
    requires Legal(cfg, log) && k < |log| && log[k] == Quiet && NoClose(log[..k])
    ensures AllDispatched(log[..k]) == DecodeAll(AllReceived(log[..k]))
  {
    LegalPrefix(cfg, log, k);
    NothingCleared(log[..k]);
  }

  // ------------------------------------------------------------ what handlers and the peer get

  function DataOf(fs: seq<Frame>): seq<Frame> {
    if fs == [] then []
    else DataOf(fs[..|fs| - 1]) + if IsData(fs[|fs| - 1]) then [fs[|fs| - 1]] else []
  }

  function PingsOf(fs: seq<Frame>): seq<seq<byte>> {
    if fs == [] then []
    else PingsOf(fs[..|fs| - 1]) + if fs[|fs| - 1].opcode == 0x9 then [fs[|fs| - 1].payload] else []
  }

  lemma {:induction false} PrefixOf(fs: seq<Frame>, gs: seq<Frame>)
    requires fs <= gs
    ensures DataOf(fs) <= DataOf(gs) && PingsOf(fs) <= PingsOf(gs)
    decreases |gs|
  {
    if fs != gs {
      var init := gs[..|gs| - 1];
      assert fs <= init;
      PrefixOf(fs, init);
    }
  }

  lemma AppendOf(fs: seq<Frame>, f: Frame)
    ensures DataOf(fs + [f]) == DataOf(fs) + if IsData(f) then [f] else []
    ensures PingsOf(fs + [f]) == PingsOf(fs) + if f.opcode == PING then [f.payload] else []
  {
    assert (fs + [f])[..|fs|] == fs;
  }

  lemma {:induction false} AccountsAreDispatched(log: seq<Event>)
    ensures SummaryOf(log).acc.data == DataOf(AllDispatched(log))
    ensures SummaryOf(log).acc.pings == PingsOf(AllDispatched(log))
  {
    if log != [] {
      var init, e := log[..|log| - 1], log[|log| - 1];
      AccountsAreDispatched(init);
      DispatchStep(SummaryOf(init), e);
      if e.Dispatched? {
        AppendOf(AllDispatched(init), e.frame);
      } else {
        assert AllDispatched(log) == AllDispatched(init);
      }
    }
  }

  lemma DispatchStep(m: Summary, e: Event)
    ensures Next(m, e).acc.data
            == m.acc.data + if e.Dispatched? && IsData(e.frame) then [e.frame] else []
    ensures Next(m, e).acc.pings
            == m.acc.pings + if e.Dispatched? && e.frame.opcode == PING then [e.frame.payload] else []
  {}

  /**
    From the bytes received to the handlers and back to the peer: whenever a handler or
    the caller is in control, handlers have been called with exactly the data frames
    dispatched, in order, and without a fault the pongs sent carry exactly the payloads of
    the pings dispatched. Before a close these are the first ones of the stream.
  */
  lemma StreamToHandlers(cfg: Config, log: seq<Event>, k: nat)
    requires Legal(cfg, log) && k < |log| && log[k].Boundary?
    ensures var m, sent, stream := SummaryOf(log[..k]), AllDispatched(log[..k]), DecodeAll(AllReceived(log[..k]));
            && m.acc.handled == DataOf(sent)
            && (!m.faulted ==> m.acc.pongs == PingsOf(sent))
            && (NoClose(log[..k]) ==>
                  sent <= stream && DataOf(sent) <= DataOf(stream) && PingsOf(sent) <= PingsOf(stream))
  {
    var before := log[..k];
    LegalPrefix(cfg, log, k);
    AccountsAreDispatched(before);
    if NoClose(before) {
      Delivery(cfg, log, k);
      PrefixOf(AllDispatched(before), DecodeAll(AllReceived(before)));
    }
  }

  // ------------------------------------------------------------ closes

  /** Faults are not forgotten, and counts only grow. */
  predicate Later(m: Summary, n: Summary) {
    && (m.faulted ==> n.faulted)
    && m.acc.closeCalls <= n.acc.closeCalls
    && m.acc.serverCloses <= n.acc.serverCloses
    && m.acc.clientCloses <= n.acc.clientCloses
  }

  lemma LaterStep(m: Summary, e: Event)
    ensures Later(m, Next(m, e))
  {}

  lemma {:induction false} LaterAlong(before: seq<Event>, after: seq<Event>)
    requires before <= after
    ensures Later(SummaryOf(before), SummaryOf(after))
    decreases |after|
  {
    if before != after {
      var init := after[..|after| - 1];
      assert before <= init;
      LaterAlong(before, init);
      LaterStep(SummaryOf(init), after[|after| - 1]);
    }
  }

  /** Calls of the close handler from one point to a later one. */
  function CloseCalls(m: Summary, n: Summary): int {
    n.acc.closeCalls - m.acc.closeCalls
  }

  /** How often the status became CLOSED_BY_SERVER, and CLOSED_BY_CLIENT. */
  function ServerCloses(m: Summary, n: Summary): int {
    n.acc.serverCloses - m.acc.serverCloses
  }

  function ClientCloses(m: Summary, n: Summary): int {
    n.acc.clientCloses - m.acc.clientCloses
  }

  /**
    Close accounting: without a fault, and whatever handlers re-enter, between any two
    points at which a handler or the caller is in control the close handler was called, and
    a close frame sent, exactly once for each time that one of the two sides closed. So it
    was called exactly once if and only if just one side closed, just once.
  */
  lemma CloseAccounting(cfg: Config, log: seq<Event>, i: nat, j: nat)
    requires Legal(cfg, log) && i <= j < |log| && log[i].Boundary? && log[j].Boundary?
    requires !SummaryOf(log[..j]).faulted
    ensures var m, n := SummaryOf(log[..i]), SummaryOf(log[..j]);
            && CloseCalls(m, n) == ServerCloses(m, n) + ClientCloses(m, n)
            && CloseCalls(m, n) == n.acc.closesSent - m.acc.closesSent
            && ServerCloses(m, n) >= 0 && ClientCloses(m, n) >= 0
            && (CloseCalls(m, n) == 1 <==>
                  || (ServerCloses(m, n) == 1 && ClientCloses(m, n) == 0)
                  || (ServerCloses(m, n) == 0 && ClientCloses(m, n) == 1))
            && (log[j].status in {ClosedByServer, ClosedByClient} ==> n.acc.closeCalls >= 1)
  {
    FairAtBoundary(cfg, log, i);
    FairAtBoundary(cfg, log, j);
    assert log[..i] <= log[..j];
    LaterAlong(log[..i], log[..j]);
    CallsAddUp(SummaryOf(log[..i]), SummaryOf(log[..j]));
  }

  lemma FairAtBoundary(cfg: Config, log: seq<Event>, k: nat)
    requires Legal(cfg, log) && k < |log| && log[k].Boundary?
    ensures Fair(SummaryOf(log[..k])) && log[k].status == SummaryOf(log[..k]).conn.status
  {
    LegalPrefix(cfg, log, k);
  }

  lemma CallsAddUp(m: Summary, n: Summary)
    requires Fair(m) && Fair(n) && Later(m, n) && !n.faulted
    ensures CloseCalls(m, n) == ServerCloses(m, n) + ClientCloses(m, n)
    ensures CloseCalls(m, n) == n.acc.closesSent - m.acc.closesSent
    ensures ServerCloses(m, n) >= 0 && ClientCloses(m, n) >= 0
    ensures CloseCalls(m, n) == 1 <==>
              (ServerCloses(m, n) == 1 && ClientCloses(m, n) == 0)
              || (ServerCloses(m, n) == 0 && ClientCloses(m, n) == 1)
  {}

  // ------------------------------------------------------------ faults

  /** No system call fails. */
  ghost predicate CallsSucceed(cfg: Config) {
    cfg.writes == [] && forall i :: 0 <= i < |cfg.recvs| ==> cfg.recvs[i] != Failed
  }

  /** A ping that cannot be answered, because a pong of that size is refused. */
  predicate IsLongPing(f: Frame) {
    f.opcode == PING && |f.payload| > 125
  }

  lemma ActStep(cfg: Config, m: Summary, e: Event)
    requires Admissible(cfg, m, e) && Next(m, e).due.Act?
    ensures e == Dispatched(Next(m, e).due.frame)
  {}

  /** The frame to be acted on is the one dispatched last. */
  lemma DueIsLast(cfg: Config, log: seq<Event>)
    requires Legal(cfg, log) && SummaryOf(log).due.Act?
    ensures log != [] && log[|log| - 1] == Dispatched(SummaryOf(log).due.frame)
  {
    LegalLast(cfg, log);
    ActStep(cfg, SummaryOf(log[..|log| - 1]), log[|log| - 1]);
  }

  /** Where a fault can come from. */
  lemma FaultStep(cfg: Config, m: Summary, e: Event)
    requires Admissible(cfg, m, e) && CallsSucceed(cfg) && Faults(e)
    ensures m.due.Act? && IsLongPing(m.due.frame)
  {}

  /** If no system call fails, only a ping that is too long to answer makes anything throw. */
  lemma {:induction false} OnlyLongPingsFault(cfg: Config, log: seq<Event>) returns (k: nat)
    requires Legal(cfg, log) && CallsSucceed(cfg) && SummaryOf(log).faulted
    ensures k < |log| && log[k].Dispatched? && IsLongPing(log[k].frame)
  {
    var init, e := log[..|log| - 1], log[|log| - 1];
    LegalLast(cfg, log);
    if Faults(e) {
      FaultStep(cfg, SummaryOf(init), e);
      DueIsLast(cfg, init);
      k := |init| - 1;
    } else {
      k := OnlyLongPingsFault(cfg, init);
    }
  }

  /** What the parser has taken in since it was cleared is what the receive calls since then delivered. */
  lemma {:induction false} ReceivedIsSpan(cfg: Config, log: seq<Event>) returns (a: nat)
    requires Legal(cfg, log)
    ensures SummaryOf(log).inb.received == Span(cfg.recvs, a, SummaryOf(log).inb.calls)
    ensures a <= SummaryOf(log).inb.calls
  {
    a := 0;
    if log != [] {
      var m, e := SummaryOf(log[..|log| - 1]), log[|log| - 1];
      LegalInit(cfg, log);
      a := ReceivedIsSpan(cfg, log[..|log| - 1]);
      SpanLast(cfg, log, a);
      if e.Cleared? {
        a := m.inb.calls;
      }
    }
  }

  lemma SpanStep(cfg: Config, m: Summary, e: Event, a: nat)
    requires Admissible(cfg, m, e) && a <= m.inb.calls
    requires m.inb.received == Span(cfg.recvs, a, m.inb.calls)
    ensures var i := Next(m, e).inb;
            if e.Cleared? then i.received == [] && i.calls == m.inb.calls
            else a <= i.calls && i.received == Span(cfg.recvs, a, i.calls)
  {
    AppendEmpty(m.inb.received);
  }

  lemma SpanLast(cfg: Config, log: seq<Event>, a: nat)
    requires Legal(cfg, log) && log != []
    requires var i := SummaryOf(log[..|log| - 1]).inb; a <= i.calls && i.received == Span(cfg.recvs, a, i.calls)
    ensures var m, i, e := SummaryOf(log[..|log| - 1]), SummaryOf(log).inb, log[|log| - 1];
            if e.Cleared? then i.received == [] && i.calls == m.inb.calls
            else a <= i.calls && i.received == Span(cfg.recvs, a, i.calls)
  {
    LegalLast(cfg, log);
    SpanStep(cfg, SummaryOf(log[..|log| - 1]), log[|log| - 1], a);
  }

  /** However the stream is cut, by clearing the parser, no ping in it is too long to answer. */
  ghost predicate NoLongPings(recvs: seq<Recv>) {
    forall a: nat, b: nat :: NoLongPing(DecodeAll(Span(recvs, a, b)))
  }

  predicate NoLongPing(fs: seq<Frame>) {
    forall i :: 0 <= i < |fs| ==> !IsLongPing(fs[i])
  }

  lemma DispatchedFrom(cfg: Config, m: Summary, e: Event)
    requires Admissible(cfg, m, e) && e.Dispatched? && NoLongPing(DecodeAll(m.inb.received))
    ensures !IsLongPing(e.frame)
  {
    assert (m.inb.emitted + [e.frame])[|m.inb.emitted|] == DecodeAll(m.inb.received)[|m.inb.emitted|];
  }

  /** If no system call fails and no ping is too long to answer, nothing ever throws. */
  lemma NothingThrows(cfg: Config, log: seq<Event>)
    requires Legal(cfg, log) && CallsSucceed(cfg) && NoLongPings(cfg.recvs)
    ensures !SummaryOf(log).faulted
  {
    if SummaryOf(log).faulted {
      var k := OnlyLongPingsFault(cfg, log);
      LegalPrefix(cfg, log, k);
      var a := ReceivedIsSpan(cfg, log[..k]);
      assert NoLongPing(DecodeAll(Span(cfg.recvs, a, SummaryOf(log[..k]).inb.calls)));
      DispatchedFrom(cfg, SummaryOf(log[..k]), log[k]);
      assert false;
    }
  }

  lemma {:induction false} SpanGrows(recvs: seq<Recv>, a: nat, i: nat, j: nat)
    requires i <= j
    ensures |Span(recvs, a, i)| <= |Span(recvs, a, j)| <= |Delivered(recvs, j)|
    ensures i >= |recvs| ==> Delivered(recvs, i) == Delivered(recvs, j)
    decreases j
  {
    if i < j {
      SpanGrows(recvs, a, i, j - 1);
    } else if j > 0 {
      SpanGrows(recvs, a, j - 1, j - 1);
    }
  }

  /** All the bytes that a tape delivers. */
  function Whole(recvs: seq<Recv>): seq<byte> {
    Delivered(recvs, |recvs|)
  }

  lemma SpanFits(recvs: seq<Recv>, a: nat, b: nat)
    ensures |Span(recvs, a, b)| <= |Whole(recvs)|
  {
    SpanGrows(recvs, a, b, b);
    if b <= |recvs| {
      SpanGrows(recvs, 0, b, |recvs|);
    } else {
      SpanGrows(recvs, 0, |recvs|, b);
    }
  }

  /** A peer that sends at most 125 bytes sends no ping that is too long. */
  lemma SmallStreamsAreEasy(recvs: seq<Recv>)
    requires |Whole(recvs)| <= 125
    ensures NoLongPings(recvs)
  {
    forall a: nat, b: nat
      ensures NoLongPing(DecodeAll(Span(recvs, a, b)))
    {
      var s := Span(recvs, a, b);
      SpanFits(recvs, a, b);
      forall i | 0 <= i < |DecodeAll(s)|
        ensures !IsLongPing(DecodeAll(s)[i])
      {
        PayloadsFit(s, i);
      }
    }
  }

  // ------------------------------------------------------------ the ping timer

  predicate IsPing(e: Event) {
    e.Started? || (e.Tick? && e.action == SendPing)
  }

  predicate TouchesTimer(e: Event) {
    IsPing(e) || e.PongAt?
  }

  lemma TimerStep(m: Summary, e: Event)
    ensures Next(m, e).conn.timer == if TouchesTimer(e) then Running(IsPing(e), e.at) else m.conn.timer
  {}

  ghost predicate TimerUntouched(log: seq<Event>, i: nat, j: nat) {
    forall k :: i < k < j && k < |log| ==> !TouchesTimer(log[k])
  }

  /**
    What the timer means: its start is the time of the last ping while the client waits
    and of the last pong otherwise. Returns where that ping or pong is.
  */
  lemma {:induction false} TimerMeaning(cfg: Config, log: seq<Event>) returns (i: nat)
    requires Legal(cfg, log) && SummaryOf(log).conn.timer.Running?
    ensures var t := SummaryOf(log).conn.timer;
            && i < |log| && TimerUntouched(log, i, |log|)
            && (if t.waiting then IsPing(log[i]) else log[i].PongAt?)
            && TouchesTimer(log[i]) && log[i].at == t.since
  {
    var init, e := log[..|log| - 1], log[|log| - 1];
    LegalInit(cfg, log);
    TimerStep(SummaryOf(init), e);
    if TouchesTimer(e) {
      i := |log| - 1;
    } else {
      i := TimerMeaning(cfg, init);
    }
  }

  lemma FirstPingOnce(cfg: Config, m: Summary, e: Event)
    requires Admissible(cfg, m, e) && IsPing(e) && m.conn.timer.Running?
    ensures !m.conn.timer.waiting
  {}

  /** Between two pings the client has seen a pong. */
  lemma PongBetweenPings(cfg: Config, log: seq<Event>, i: nat, j: nat) returns (k: nat)
    requires Legal(cfg, log) && i < j < |log| && IsPing(log[i]) && IsPing(log[j])
    ensures i < k < j && log[k].PongAt?
  {
    var before := log[..j];
    LegalPrefix(cfg, log, j);
    assert before[i] == log[i];
    TimerRuns(before, i);
    FirstPingOnce(cfg, SummaryOf(before), log[j]);
    k := TimerMeaning(cfg, before);
  }

  /** Once started, the timer runs for good. */
  lemma {:induction false} TimerRuns(log: seq<Event>, i: nat)
    requires i < |log| && TouchesTimer(log[i])
    ensures SummaryOf(log).conn.timer.Running?
  {
    var init, e := log[..|log| - 1], log[|log| - 1];
    TimerStep(SummaryOf(init), e);
    if i < |init| {
      TimerRuns(init, i);
    }
  }

  /**
    What update_ping does, exactly: with i the last ping or pong, after a ping it gives up if
    and only if more than the timeout has gone by, and never pings; after a pong it pings if
    and only if more than the ping interval has gone by, and never gives up.
  */
  lemma TickMeaning(cfg: Config, log: seq<Event>, j: nat) returns (i: nat)
    requires Legal(cfg, log) && j < |log| && log[j].Tick?
    ensures i < j && TouchesTimer(log[i]) && TimerUntouched(log, i, j)
    ensures var gone := log[j].looked - log[i].at;
            if log[i].PongAt? then
              (log[j].action == SendPing <==> gone > cfg.every) && log[j].action != Expire
            else
              (log[j].action == Expire <==> gone > cfg.timeout) && log[j].action != SendPing
  {
    LegalPrefix(cfg, log, j);
    i := TimerMeaning(cfg, log[..j]);
    forall k | i < k < j
      ensures !TouchesTimer(log[k])
    {
      assert log[..j][k] == log[k];
    }
  }

  /** A ping after the first one comes more than the ping interval after the last pong. */
  lemma PingsArePaced(cfg: Config, log: seq<Event>, j: nat) returns (i: nat)
    requires Legal(cfg, log) && j < |log| && log[j].Tick? && log[j].action == SendPing
    ensures i < j && log[i].PongAt? && TimerUntouched(log, i, j) && log[j].looked - log[i].at > cfg.every
  {
    i := TickMeaning(cfg, log, j);
  }

  lemma RttStep(m: Summary, e: Event)
    ensures Next(m, e).conn.rtt == if e.PongAt? then e.looked - StartOf(m.conn.timer) else m.conn.rtt
  {}

  /**
    The round trip: it is 0 before the first pong, and otherwise the time from the last ping
    or pong before the last pong to the first look at the clock for that pong.
  */
  lemma {:induction false} RttMeaning(cfg: Config, log: seq<Event>) returns (i: nat, k: nat)
    requires Legal(cfg, log)
    ensures if forall n :: 0 <= n < |log| ==> !log[n].PongAt? then SummaryOf(log).conn.rtt == 0
            else
              && i < k < |log| && log[k].PongAt? && (forall n :: k < n < |log| ==> !log[n].PongAt?)
              && TouchesTimer(log[i]) && TimerUntouched(log, i, k)
              && SummaryOf(log).conn.rtt == log[k].looked - log[i].at
  {
    i, k := 0, 0;
    if log != [] {
      var init, e := log[..|log| - 1], log[|log| - 1];
      LegalInit(cfg, log);
      RttStep(SummaryOf(init), e);
      if e.PongAt? {
        PongRuns(cfg, log);
        i := TimerMeaning(cfg, init);
        k := |init|;
      } else {
        i, k := RttMeaning(cfg, init);
      }
    }
  }

  lemma PongRuns(cfg: Config, log: seq<Event>)
    requires Legal(cfg, log) && log != [] && log[|log| - 1].PongAt?
    ensures SummaryOf(log[..|log| - 1]).conn.timer.Running?
  {
    LegalLast(cfg, log);
  }

  // ------------------------------------------------------------ the clock

  /** How often an event looks at the clock. */
  function Looks(e: Event): nat {
    if e.PongAt? || (e.Tick? && e.action == SendPing) then 2
    else if e.Tick? || e.Started? then 1
    else 0
  }

  function LooksIn(log: seq<Event>): nat {
    if log == [] then 0 else LooksIn(log[..|log| - 1]) + Looks(log[|log| - 1])
  }

  lemma LooksStep(m: Summary, e: Event)
    ensures Next(m, e).conn.readings == m.conn.readings + Looks(e)
  {}

  lemma {:induction false} LooksCounted(log: seq<Event>)
    ensures SummaryOf(log).conn.readings == LooksIn(log)
  {
    if log != [] {
      LooksCounted(log[..|log| - 1]);
      LooksStep(SummaryOf(log[..|log| - 1]), log[|log| - 1]);
    }
  }

  /** Every time in a history is a reading of the clock, each taken in its turn and none twice. */
  lemma ClockInTurn(cfg: Config, log: seq<Event>, k: nat)
    requires Legal(cfg, log) && k < |log| && Looks(log[k]) > 0
    ensures var n := LooksIn(log[..k]);
            && (log[k].Tick? || log[k].PongAt? ==> log[k].looked == Reading(cfg.ticks, n + 1))
            && log[k].at == Reading(cfg.ticks, n + Looks(log[k]))
  {
    LegalPrefix(cfg, log, k);
    LooksCounted(log[..k]);
  }

  /** A ping times out only after more than the timeout without a pong. */
  lemma ExpirySound(cfg: Config, log: seq<Event>, j: nat) returns (i: nat)
    requires Legal(cfg, log) && j < |log| && log[j].Tick? && log[j].action == Expire
    ensures i < j && IsPing(log[i]) && log[j].at - log[i].at > cfg.timeout
    ensures TimerUntouched(log, i, j)
  {
    LegalPrefix(cfg, log, j);
    i := TickMeaning(cfg, log, j);
  }

  // ------------------------------------------------------------ a dead peer

  /** The ping or pong at index i, or the last update_ping after it. */
  function LastBeat(log: seq<Event>, i: nat): int
    requires i < |log| && TouchesTimer(log[i])
  {
    var e := log[|log| - 1];
    if i == |log| - 1 || e.Tick? then e.at else LastBeat(log[..|log| - 1], i)
  }

  /** From index i on, update_ping runs, and is done with the clock, at least every g milliseconds. */
  ghost predicate Regular(log: seq<Event>, i: nat, g: nat)
    requires i < |log| && TouchesTimer(log[i])
  {
    var e := log[|log| - 1];
    i == |log| - 1 ||
    (&& Regular(log[..|log| - 1], i, g)
     && (e.Tick? ==> e.at - LastBeat(log[..|log| - 1], i) <= g))
  }

  /** No pong after index i, and nobody closes the connection. */
  ghost predicate Silent(log: seq<Event>, i: nat) {
    forall k :: i < k < |log| ==> !log[k].PongAt? && !log[k].ServerClosed? && !log[k].ClientClosed?
  }

  /** The ping timeout seen at index j. */
  predicate ExpiredBy(log: seq<Event>, j: nat, deadline: int) {
    j < |log| && log[j].Tick? && log[j].action == Expire && log[j].at <= deadline
  }

  /** The latest time of the ping that a silence starting with event e leaves unanswered. */
  function LatestPing(cfg: Config, e: Event, g: nat): int
    requires TouchesTimer(e)
  {
    if e.PongAt? then e.at + Max(0, cfg.every) + g else e.at
  }

  /** How far a silence can have got: no ping since the pong, or a ping that is not overdue. */
  ghost predicate Phase(cfg: Config, m: Summary, beat: int, start: Event, g: nat)
    requires TouchesTimer(start)
  {
    || (&& start.PongAt? && m.conn.timer == Running(false, start.at)
        && beat <= start.at + Max(0, cfg.every))
    || (&& m.conn.timer.Running? && m.conn.timer.waiting
        && m.conn.timer.since <= LatestPing(cfg, start, g)
        && beat <= m.conn.timer.since + Max(0, cfg.timeout))
  }

  lemma PhaseTick(cfg: Config, m: Summary, e: Event, beat: int, start: Event, g: nat)
    requires TouchesTimer(start) && Admissible(cfg, m, e) && e.Tick? && e.at - beat <= g
    requires Phase(cfg, m, beat, start, g)
    ensures e.action != Expire ==> Phase(cfg, Next(m, e), e.at, start, g)
    ensures e.action == Expire ==> e.at <= LatestPing(cfg, start, g) + Max(0, cfg.timeout) + g
  {}

  lemma PhaseOther(cfg: Config, m: Summary, e: Event, beat: int, start: Event, g: nat)
    requires TouchesTimer(start) && Admissible(cfg, m, e) && !e.Tick? && !e.PongAt?
    requires Phase(cfg, m, beat, start, g)
    ensures Phase(cfg, Next(m, e), beat, start, g)
  {}

  lemma TimedOutStays(cfg: Config, m: Summary, e: Event)
    requires Admissible(cfg, m, e) && m.conn.status == PingTimedOut
    requires !e.ServerClosed? && !e.ClientClosed?
    ensures Next(m, e).conn.status == PingTimedOut
  {}

  lemma {:induction false} Silence(cfg: Config, log: seq<Event>, i: nat, g: nat) returns (j: nat)
    requires Legal(cfg, log) && i < |log| && TouchesTimer(log[i])
    requires Silent(log, i) && Regular(log, i, g)
    ensures || Phase(cfg, SummaryOf(log), LastBeat(log, i), log[i], g)
            || (&& i < j && SummaryOf(log).conn.status == PingTimedOut
                && ExpiredBy(log, j, LatestPing(cfg, log[i], g) + Max(0, cfg.timeout) + g))
  {
    var init, e := log[..|log| - 1], log[|log| - 1];
    var m, start := SummaryOf(init), log[i];
    LegalLast(cfg, log);
    j := |log| - 1;
    if i < |init| {
      var k := Silence(cfg, init, i, g);
      var beat := LastBeat(init, i);
      if Phase(cfg, m, beat, start, g) {
        if e.Tick? {
          PhaseTick(cfg, m, e, beat, start, g);
        } else {
          PhaseOther(cfg, m, e, beat, start, g);
        }
      } else {
        j := k;
        TimedOutStays(cfg, m, e);
      }
    } else {
      TimerStep(m, e);
    }
  }

  /**
    Dead-peer bound. Suppose nothing is heard after the pong at time p, and update_ping
    runs at least every g milliseconds from then on. By the time it has run past
    p + every + timeout + g the status is PING_TIMED_OUT, and that was noticed no later
    than p + every + timeout + 2g. If the silence starts with a ping at time p instead,
    such as the one of the constructor, the bounds are p + timeout and p + timeout + g.
  */
  lemma DeadPeer(cfg: Config, log: seq<Event>, i: nat, g: nat) returns (j: nat)
    requires Legal(cfg, log) && i < |log| && TouchesTimer(log[i])
    requires Silent(log, i) && Regular(log, i, g)
    requires LastBeat(log, i) > LatestPing(cfg, log[i], g) + Max(0, cfg.timeout)
    ensures SummaryOf(log).conn.status == PingTimedOut && i < j
    ensures log[i].PongAt? ==>
              ExpiredBy(log, j, log[i].at + Max(0, cfg.every) + Max(0, cfg.timeout) + 2 * g)
    ensures IsPing(log[i]) ==> ExpiredBy(log, j, log[i].at + Max(0, cfg.timeout) + g)
  {
    j := Silence(cfg, log, i, g);
  }

  // ------------------------------------------------------------ the output stream

  /** Every write went out in full: no error, and no frame too large for an int. */
  ghost predicate AllWritten(log: seq<Event>) {
    forall i :: 0 <= i < |log| ==> InFull(log[i])
  }

  predicate InFull(e: Event) {
    e.Wrote? ==> e.ok && |Encode(e.frame)| < TWO_31
  }

  lemma AllWrittenSplit(log: seq<Event>)
    requires log != []
    ensures AllWritten(log) <==> AllWritten(log[..|log| - 1]) && InFull(log[|log| - 1])
  {
    var init := log[..|log| - 1];
    if AllWritten(log) {
      forall i | 0 <= i < |init|
        ensures InFull(init[i])
      {
        assert init[i] == log[i];
      }
    }
  }

  lemma OutputStep(m: Summary, e: Event)
    ensures Next(m, e).outb.offered == m.outb.offered + if e.Wrote? then [e.frame] else []
    ensures Next(m, e).outb.wire
            == m.outb.wire
               + if e.Wrote? then Encode(e.frame)[..Min(e.count, |Encode(e.frame)|)] else []
  {}

  lemma FullWrite(cfg: Config, m: Summary, e: Event)
    requires Admissible(cfg, m, e) && e.Wrote? && e.ok && |Encode(e.frame)| < TWO_31
    ensures Encode(e.frame)[..Min(e.count, |Encode(e.frame)|)] == Encode(e.frame)
    ensures KeyInTurn(cfg, m.outb, e.frame)
  {
    SendsAllIffInt(|Encode(e.frame)|);
  }

  lemma EncodeAllAppend(fs: seq<Frame>, f: Frame)
    ensures EncodeAll(fs + [f]) == EncodeAll(fs) + Encode(f)
  {
    assert (fs + [f])[..|fs|] == fs;
  }

  lemma {:induction false} WireIsRequests(cfg: Config, log: seq<Event>)
    requires Legal(cfg, log) && AllWritten(log)
    ensures SummaryOf(log).outb.wire == EncodeAll(SummaryOf(log).outb.offered)
    ensures Sendable(SummaryOf(log).outb.offered)
  {
    if log != [] {
      var init := log[..|log| - 1];
      LegalLast(cfg, log);
      AllWrittenSplit(log);
      WireIsRequests(cfg, init);
      var m, e := SummaryOf(init), log[|log| - 1];
      OutputStep(m, e);
      if e.Wrote? {
        FullWrite(cfg, m, e);
        EncodeAllAppend(m.outb.offered, e.frame);
      }
    }
  }

  lemma LengthStep(cfg: Config, m: Summary, e: Event)
    requires Admissible(cfg, m, e) && |m.outb.wire| <= |EncodeAll(m.outb.offered)|
    ensures var o := Next(m, e).outb;
            && |o.wire| <= |EncodeAll(o.offered)|
            && (|m.outb.wire| < |EncodeAll(m.outb.offered)| ==> |o.wire| < |EncodeAll(o.offered)|)
            && (!InFull(e) ==> |o.wire| < |EncodeAll(o.offered)|)
  {
    OutputStep(m, e);
    if e.Wrote? {
      EncodeAllAppend(m.outb.offered, e.frame);
      SendsAllIffInt(|Encode(e.frame)|);
    }
  }

  /** Unless every write went out in full, the wire is shorter than what was asked for. */
  lemma {:induction false} WireLength(cfg: Config, log: seq<Event>)
    requires Legal(cfg, log)
    ensures var o := SummaryOf(log).outb;
            |o.wire| <= |EncodeAll(o.offered)| && (!AllWritten(log) ==> |o.wire| < |EncodeAll(o.offered)|)
  {
    if log != [] {
      var init := log[..|log| - 1];
      var m, e := SummaryOf(init), log[|log| - 1];
      LegalLast(cfg, log);
      WireLength(cfg, init);
      AllWrittenSplit(log);
      LengthStep(cfg, m, e);
    }
  }

  /**
    End to end: the bytes on the wire decode to exactly the frames offered to the socket, in order, if
    and only if every write went out in full, whatever the partial writes; and then to
    nothing else.
  */
  lemma OutputDecodes(cfg: Config, log: seq<Event>)
    requires Legal(cfg, log)
    ensures var m := SummaryOf(log);
            && (AllWritten(log) <==> UnmaskAll(DecodeAll(m.outb.wire)) == NormalAll(m.outb.offered))
            && (AllWritten(log) ==> Remainder(m.outb.wire) == [])
  {
    var o := SummaryOf(log).outb;
    if AllWritten(log) {
      WireIsRequests(cfg, log);
      StreamRoundTrip(o.offered);
    } else if UnmaskAll(DecodeAll(o.wire)) == NormalAll(o.offered) {
      WireLength(cfg, log);
      ReencodedLength(o.wire);
      NormalLength(o.offered);
    }
  }

  /** The payloads of the pongs among some frames. */
  function PongsOf(fs: seq<Frame>): seq<seq<byte>> {
    if fs == [] then []
    else PongsOf(fs[..|fs| - 1]) + if fs[|fs| - 1].opcode == 0xA then [fs[|fs| - 1].payload] else []
  }

  lemma PongsAppend(fs: seq<Frame>, f: Frame)
    ensures PongsOf(fs + [f]) == PongsOf(fs) + if f.opcode == PONG then [f.payload] else []
  {
    assert (fs + [f])[..|fs|] == fs;
  }

  lemma PongStep(cfg: Config, m: Summary, e: Event)
    requires Admissible(cfg, m, e) && (e.Wrote? ==> e.ok)
    ensures Next(m, e).acc.pongs
            == m.acc.pongs + if e.Wrote? && e.frame.opcode == PONG then [e.frame.payload] else []
    ensures e.Wrote? ==> e.frame.opcode < 16
  {}

  lemma {:induction false} PongsRequested(cfg: Config, log: seq<Event>)
    requires Legal(cfg, log) && AllWritten(log)
    ensures PongsOf(NormalAll(SummaryOf(log).outb.offered)) == SummaryOf(log).acc.pongs
  {
    if log != [] {
      var init := log[..|log| - 1];
      var m, e := SummaryOf(init), log[|log| - 1];
      LegalInit(cfg, log);
      AllWrittenSplit(log);
      PongsRequested(cfg, init);
      OutputStep(m, e);
      PongLast(cfg, log);
      if e.Wrote? {
        NormalPongs(m.outb.offered, e.frame);
      }
    }
  }

  lemma PongLast(cfg: Config, log: seq<Event>)
    requires Legal(cfg, log) && log != [] && InFull(log[|log| - 1])
    ensures var e := log[|log| - 1];
            && SummaryOf(log).acc.pongs
               == SummaryOf(log[..|log| - 1]).acc.pongs
                  + (if e.Wrote? && e.frame.opcode == PONG then [e.frame.payload] else [])
            && (e.Wrote? ==> e.frame.opcode < 16)
  {
    LegalLast(cfg, log);
    PongStep(cfg, SummaryOf(log[..|log| - 1]), log[|log| - 1]);
  }

  lemma NormalPongs(fs: seq<Frame>, f: Frame)
    requires f.opcode < 16
    ensures PongsOf(NormalAll(fs + [f]))
            == PongsOf(NormalAll(fs)) + if f.opcode == PONG then [f.payload] else []
  {
    PongsAppend(NormalAll(fs), Normal(f));
    assert NormalAll(fs + [f]) == NormalAll(fs) + [Normal(f)];
  }

  /**
    Pongs on the wire: if every write went out in full, then whenever a handler or the
    caller is in control, the pongs that a peer decodes from the wire echo, in order,
    exactly the pings dispatched; unless one of those was too long to answer.
  */
  lemma PongsOnTheWire(cfg: Config, log: seq<Event>, k: nat)
    requires Legal(cfg, log) && k < |log| && log[k].Boundary? && AllWritten(log[..k])
    requires !SummaryOf(log[..k]).faulted
    ensures PongsOf(UnmaskAll(DecodeAll(SummaryOf(log[..k]).outb.wire))) == PingsOf(AllDispatched(log[..k]))
  {
    LegalPrefix(cfg, log, k);
    OutputDecodes(cfg, log[..k]);
    PongsRequested(cfg, log[..k]);
    StreamToHandlers(cfg, log, k);
  }

  /** A write that fails leaves all frames before it on the wire, and a part of its own. */
  lemma OutputCutShort(cfg: Config, log: seq<Event>, f: Frame, count: nat)
    requires Legal(cfg, log) && AllWritten(log)
    requires Admissible(cfg, SummaryOf(log), Wrote(f, count, false)) && |Encode(f)| < TWO_31
    ensures var m := Next(SummaryOf(log), Wrote(f, count, false));
            && DecodeAll(m.outb.wire) == OnWireAll(SummaryOf(log).outb.offered)
            && Remainder(m.outb.wire) < Encode(f)
            && m.outb.wire <= EncodeAll(m.outb.offered)
  {
    var m := SummaryOf(log);
    WireIsRequests(cfg, log);
    FailedWrite(cfg, m, f, count);
    OutputStep(m, Wrote(f, count, false));
    CutStream(m.outb.offered, f, count);
    EncodeAllAppend(m.outb.offered, f);
    PrefixOfAppend(m.outb.wire, Encode(f), count);
  }

  lemma FailedWrite(cfg: Config, m: Summary, f: Frame, count: nat)
    requires Admissible(cfg, m, Wrote(f, count, false))
    ensures count < |Encode(f)|
  {
    SendsAllIffInt(|Encode(f)|);
  }

  lemma PrefixOfAppend(s: seq<byte>, t: seq<byte>, k: nat)
    requires k < |t|
    ensures s + t[..k] <= s + t && t[..k] < t
  {}

  /**
    Every frame written is final and masked, and the keys are consecutive stretches of the
    generator's byte stream, across all refills of the cache.
  */
  lemma {:induction false} KeysInTurn(cfg: Config, log: seq<Event>, k: nat)
    requires Legal(cfg, log) && k < |SummaryOf(log).outb.offered|
    ensures var f := SummaryOf(log).outb.offered[k];
            && f.fin && f.mask && f.key == KeyAt(cfg.layout, cfg.seed, 4 * k)
            && IsDrawnKey(cfg.layout, cfg.seed, 4 * k, f.key)
  {
    var init, e := log[..|log| - 1], log[|log| - 1];
    LegalLast(cfg, log);
    OutputStep(SummaryOf(init), e);
    KeyIsDrawn(cfg.layout, cfg.seed, 4 * k);
    if k < |SummaryOf(init).outb.offered| {
      KeysInTurn(cfg, init, k);
    }
  }
}
