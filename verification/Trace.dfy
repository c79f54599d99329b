/**
  Histories of a client: what it received, dispatched, wrote and told its handler, in
  order. `Summary` is what a history amounts to, `Admissible` says which events may come
  next, and a legal history is one made of admissible events only. Client.dfy proves that
  the client makes legal histories; Theorems.dfy says what every legal history satisfies.
*/
module Trace {
  import opened Bytes
  import opened Frames
  import opened Streams
  import opened RandomKeys
  import opened Sockets
  import opened Calls

  datatype Status = Healthy | ClosedByServer | ClosedByClient | PingTimedOut | Failure | Unknown

  /**
    Milliseconds between pings and for an answer, where the masking keys come from, what the
    system calls are going to return, and what is going to be done with the client: by its
    handlers, of which the open handler is the first, and by the programs that own it.
  */
  datatype Config = Config(
    every: int, timeout: int, layout: Layout, seed: State,
    recvs: seq<Recv>, writes: seq<int>, ticks: seq<nat>,
    scripts: seq<seq<Call>>, programs: seq<seq<Call>>)

  datatype Action = Idle | SendPing | Expire

  datatype Handler = OnText | OnBinary | OnContinuation

  datatype Event =
    | Received(bytes: seq<byte>)                     // new bytes behind the parser's unread ones
    | RecvFailed                                     // an exception from a read
    | Dispatched(frame: Frame)                       // update returned a frame inside poll
    | Discarded(frame: Frame)                        // update returned a frame while close waits
    | Quiet                                          // update returned nothing inside poll
    | Cleared                                        // the parser forgot everything
    | Wrote(frame: Frame, count: nat, ok: bool)      // count bytes of the frame went out
    | Refused(opcode: byte, payload: seq<byte>)      // a control frame too long to print
    | Opened                                         // the handshake succeeded
    | Started(at: int)                               // the timer is started for the first ping
    | Tick(looked: int, action: Action, at: int)     // update_ping decides, then may restart the timer
    | PongAt(looked: int, at: int)                   // handle_pong looks, then restarts the timer
    | ServerClosed
    | ClientClosed
    | OnData(handler: Handler, frame: Frame)         // a handler is called with a frame
    | OnClose(success: bool)                         // the close handler is called
    | Boundary(status: Status, open: bool)           // what a handler or the caller can see
    | Entered(script: seq<Call>)                     // a handler starts to do this
    | Launched(script: seq<Call>)                    // a program starts to do this
    | Called(op: Op)                                 // a public call begins
    | Returned(ok: bool)                             // it returns, or throws
    | Ended                                          // the handler or program returns, or throws

  datatype Timer = Stopped | Running(waiting: bool, since: int)

  /**
    The connection, with the last round trip and the number of clock readings; the bytes and
    frames since the parser was last cleared, with the number of reads since the opening; the
    output.
  */
  datatype Conn = Conn(status: Status, timer: Timer, rtt: int, readings: nat)
  datatype Inbound = Inbound(received: seq<byte>, emitted: seq<Frame>, calls: nat)
  datatype Outbound = Outbound(wire: seq<byte>, offered: seq<Frame>)

  /**
    Data frames dispatched and handled, payloads of pings dispatched and pongs sent, data
    frames asked for and sent, and counts.
  */
  datatype Accounts = Accounts(
    data: seq<Frame>, handled: seq<Frame>,
    pings: seq<seq<byte>>, pongs: seq<seq<byte>>,
    asked: seq<Request>, sent: seq<Request>,
    pingsIssued: nat, pingsSent: nat,
    closesSent: nat, closeCalls: nat, serverCloses: nat, clientCloses: nat)

  /**
    What has to come next: anything; the action for a frame; the write of what was asked for,
    of a ping of our own, or of the answer to a close; the end of the connection after a close
    of our own; a look around, by a handler if `enters`; or the start of the handler's script.
  */
  datatype Due =
    | Clear | Act(frame: Frame) | Ask(request: Request) | Pinging | Replying | Leaving
    | Show(enters: bool) | Enter

  datatype Summary = Summary(
    conn: Conn, inb: Inbound, outb: Outbound, run: Run, due: Due, acc: Accounts, faulted: bool)

  const START :=
    Summary(Conn(Unknown, Stopped, 0, 0), Inbound([], [], 0), Outbound([], []), Run(Empty, 0, 0), Clear,
            Accounts([], [], [], [], [], [], 0, 0, 0, 0, 0, 0), false)

  predicate IsData(f: Frame) {
    f.opcode !in {PING, PONG, CLOSE}
  }

  /** Which handler gets which data frame; every other opcode counts as a continuation. */
  function HandlerFor(opcode: byte): Handler {
    if opcode == TEXT then OnText else if opcode == BINARY then OnBinary else OnContinuation
  }

  function StartOf(t: Timer): int {
    if t.Running? then t.since else 0
  }

  /** The n-th reading of the clock, which starts at 0 and moves on before each one. */
  function Reading(ticks: seq<nat>, n: nat): nat {
    if n == 0 then 0 else Reading(ticks, n - 1) + if n - 1 < |ticks| then ticks[n - 1] else 0
  }

  function ConnAfter(c: Conn, e: Event): Conn {
    match e
    case Opened => c.(status := Healthy)
    case ServerClosed => c.(status := ClosedByServer)
    case ClientClosed => c.(status := ClosedByClient)
    case Started(at) => c.(timer := Running(true, at), readings := c.readings + 1)
    case PongAt(looked, at) =>
      c.(timer := Running(false, at), rtt := looked - StartOf(c.timer), readings := c.readings + 2)
    case Tick(_, Idle, _) => c.(readings := c.readings + 1)
    case Tick(_, SendPing, at) => c.(timer := Running(true, at), readings := c.readings + 2)
    case Tick(_, Expire, _) => c.(status := PingTimedOut, readings := c.readings + 1)
    case _ => c
  }

  function InboundAfter(i: Inbound, e: Event): Inbound {
    match e
    case Received(bytes) => i.(received := i.received + bytes, calls := i.calls + 1)
    case RecvFailed => i.(calls := i.calls + 1)
    case Dispatched(f) => i.(emitted := i.emitted + [f])
    case Discarded(f) => i.(emitted := i.emitted + [f])
    case Cleared => Inbound([], [], i.calls)
    case _ => i
  }

  function OutboundAfter(o: Outbound, e: Event): Outbound {
    match e
    case Wrote(f, count, _) =>
      Outbound(o.wire + Encode(f)[..Min(count, |Encode(f)|)], o.offered + [f])
    case _ => o
  }

  function RunAfter(r: Run, e: Event): Run {
    match e
    case Entered(script) => Entering(r, script).(handlers := r.handlers + 1)
    case Launched(script) => Entering(r, script).(programs := r.programs + 1)
    case Called(_) => Calling(r)
    case Returned(ok) => Returning(r, ok)
    case Ended => Ending(r)
    case _ => r
  }

  function DueAfter(due: Due, e: Event): Due {
    match e
    case Dispatched(f) => Act(f)
    case Wrote(f, _, ok) => if due.Clear? && ok then Leaving else Clear
    case Refused(_, _) => Clear
    case PongAt(_, _) => Clear
    case Started(_) => Pinging
    case Tick(_, SendPing, _) => Pinging
    case ServerClosed => Replying
    case ClientClosed => Clear
    case OnData(_, _) => Show(true)
    case OnClose(_) => Show(true)
    case Opened => Show(true)
    case Returned(_) => Show(false)
    case Boundary(_, _) => if due == Show(true) then Enter else Clear
    case Entered(_) => Clear
    case Called(op) => if IsSend(op) then Ask(Asked1(op)) else due
    case _ => due
  }

  function AccountsAfter(a: Accounts, e: Event): Accounts {
    match e
    case Dispatched(f) =>
      if IsData(f) then a.(data := a.data + [f])
      else if f.opcode == PING then a.(pings := a.pings + [f.payload])
      else a
    case OnData(_, f) => a.(handled := a.handled + [f])
    case Wrote(f, _, ok) =>
      if !ok then a
      else if f.opcode == PONG then a.(pongs := a.pongs + [f.payload])
      else if f.opcode in {TEXT, BINARY} then a.(sent := a.sent + [Request(f.opcode, f.payload)])
      else if f.opcode == PING then a.(pingsSent := a.pingsSent + 1)
      else if f.opcode == CLOSE then a.(closesSent := a.closesSent + 1)
      else a
    case Called(op) => a.(asked := a.asked + AskedBy(op))
    case Started(_) => a.(pingsIssued := a.pingsIssued + 1)
    case Tick(_, SendPing, _) => a.(pingsIssued := a.pingsIssued + 1)
    case OnClose(_) => a.(closeCalls := a.closeCalls + 1)
    case ServerClosed => a.(serverCloses := a.serverCloses + 1)
    case ClientClosed => a.(clientCloses := a.clientCloses + 1)
    case _ => a
  }

  predicate Faults(e: Event) {
    e.RecvFailed? || e.Refused? || (e.Wrote? && !e.ok)
  }

  function Next(m: Summary, e: Event): Summary {
    Summary(ConnAfter(m.conn, e), InboundAfter(m.inb, e), OutboundAfter(m.outb, e), RunAfter(m.run, e),
            DueAfter(m.due, e), AccountsAfter(m.acc, e), m.faulted || Faults(e))
  }

  function SummaryOf(log: seq<Event>): Summary {
    if log == [] then START else Next(SummaryOf(log[..|log| - 1]), log[|log| - 1])
  }

  /** What update_ping does at a given time. */
  function Decide(cfg: Config, timer: Timer, at: int): Action
    requires timer.Running?
  {
    if timer.waiting then
      if at - timer.since > cfg.timeout then Expire else Idle
    else
      if at - timer.since > cfg.every then SendPing else Idle
  }

  /** Nothing has happened yet. */
  ghost predicate Untouched(m: Summary) {
    forall k :: Asked(AboutCounts, k) ==> m == START
  }

  /** Frames come out of the parser in stream order, none skipped and none twice. */
  ghost predicate InOrder(i: Inbound, f: Frame) {
    i.emitted + [f] <= DecodeAll(i.received)
  }

  /** Every frame written is masked, with the next four bytes of the generator's stream. */
  predicate KeyInTurn(cfg: Config, o: Outbound, f: Frame) {
    f.fin && f.mask && f.key == KeyAt(cfg.layout, cfg.seed, 4 * |o.offered|)
  }

  /** How much of a frame a write that ends like this has put on the wire. */
  predicate CountFits(f: Frame, count: nat, ok: bool) {
    count <= SendCount(|Encode(f)|) && (ok <==> count == SendCount(|Encode(f)|))
  }

  /**
    A pong answers the ping that is due, with its payload; a text or binary frame is the one
    just asked for; own pings are due when the timer says so; closes and own pings are empty.
  */
  predicate MaySend(due: Due, opcode: byte, payload: seq<byte>) {
    match due
    case Act(f) => f.opcode == PING && opcode == PONG && payload == f.payload
    case Ask(q) => opcode in {TEXT, BINARY} && q == Request(opcode, payload)
    case Pinging => opcode == PING && payload == []
    case Replying => opcode == CLOSE && payload == []
    case Clear => opcode == CLOSE && payload == []
    case _ => false
  }

  /** What the n-th read adds to a history. */
  function ReadEvent(recvs: seq<Recv>, n: nat): Event {
    var r := ReadResult(recvs, n);
    if r == Failed then RecvFailed else Received(BytesOf(r))
  }

  ghost predicate Admissible(cfg: Config, m: Summary, e: Event) {
    match e
    case Opened => m.due.Clear? && m.conn == START.conn && Untouched(m)
    case Started(at) =>
      m.due.Clear? && m.conn.timer == Stopped && at == Reading(cfg.ticks, m.conn.readings + 1)
    case Tick(looked, a, at) =>
      && m.due.Clear? && m.conn.timer.Running? && looked == Reading(cfg.ticks, m.conn.readings + 1)
      && a == Decide(cfg, m.conn.timer, looked)
      && at == (if a == SendPing then Reading(cfg.ticks, m.conn.readings + 2) else looked)
    case PongAt(looked, at) =>
      && m.conn.timer.Running? && m.due.Act? && m.due.frame.opcode == PONG
      && looked == Reading(cfg.ticks, m.conn.readings + 1) && at == Reading(cfg.ticks, m.conn.readings + 2)
    case Received(_) => m.due.Clear? && e == ReadEvent(cfg.recvs, m.inb.calls)
    case RecvFailed => m.due.Clear? && e == ReadEvent(cfg.recvs, m.inb.calls)
    case Dispatched(f) => m.due.Clear? && InOrder(m.inb, f)
    case Discarded(f) => m.due.Clear? && InOrder(m.inb, f)
    case Quiet => m.due.Clear? && m.inb.emitted == DecodeAll(m.inb.received)
    case Wrote(f, count, ok) =>
      && KeyInTurn(cfg, m.outb, f) && CountFits(f, count, ok)
      && MaySend(m.due, f.opcode, f.payload) && (cfg.writes == [] ==> ok)
      && (f.opcode in {PING, PONG, CLOSE} ==> |f.payload| <= 125)
    case Refused(opcode, payload) =>
      && opcode in {PING, PONG, CLOSE} && |payload| > 125
      && MaySend(m.due, opcode, payload)
    case ClientClosed => m.due.Leaving?
    case ServerClosed => m.due.Act? && m.due.frame.opcode == CLOSE
    case OnData(h, f) => m.due == Act(f) && IsData(f) && h == HandlerFor(f.opcode)
    case Boundary(s, open) =>
      m.due.Show? && Fair(m) && s == m.conn.status && (open <==> s == Healthy)
    case Entered(script) =>
      && m.due.Enter? && script == ScriptAt(cfg.scripts, m.run.handlers)
      && (m.run.handlers > 0 ==> Inside(m.run))
    case Launched(script) =>
      && m.due.Clear? && m.run.todo == Empty && m.run.handlers > 0
      && m.run.programs < |cfg.programs| && script == cfg.programs[m.run.programs]
    case Called(op) => m.due.Clear? && Ready(m.run, op)
    case Returned(ok) => m.due.Clear? && InCall(m.run) && (!ok ==> m.faulted)
    case Ended => m.due.Clear? && m.run.todo.On? && m.run.todo.top == Script([], false)
    case _ => m.due.Clear?
  }

  ghost predicate Legal(cfg: Config, log: seq<Event>) {
    forall k :: Asked(AboutHistory, k) && log != [] ==>
      && Legal(cfg, log[..|log| - 1])
      && Admissible(cfg, SummaryOf(log[..|log| - 1]), log[|log| - 1])
  }

  /** The accounts balance: what holds whenever a handler or the caller is in control. */
  predicate Fair(m: Summary) {
    m.acc.handled == m.acc.data && (!m.faulted ==> Balanced(m.conn.status, m.acc))
  }

  predicate Balanced(status: Status, a: Accounts) {
    && a.pongs == a.pings && a.sent == a.asked
    && a.pingsSent == a.pingsIssued
    && a.closesSent == a.closeCalls
    && a.closeCalls == a.serverCloses + a.clientCloses
    && (status in {ClosedByServer, ClosedByClient} ==> a.closesSent >= 1)
  }

  predicate Even(m: Summary) {
    m.due.Clear? && Fair(m)
  }

  lemma Extend(cfg: Config, log: seq<Event>, e: Event)
    requires Legal(cfg, log) && Admissible(cfg, SummaryOf(log), e)
    ensures Legal(cfg, log + [e]) && SummaryOf(log + [e]) == Next(SummaryOf(log), e)
  {
    assert (log + [e])[..|log|] == log;
  }

  lemma LegalInit(cfg: Config, log: seq<Event>)
    requires Legal(cfg, log) && log != []
    ensures Legal(cfg, log[..|log| - 1])
  {
    assert Asked(AboutHistory, 0);
  }

  lemma LegalLast(cfg: Config, log: seq<Event>)
    requires Legal(cfg, log) && log != []
    ensures Legal(cfg, log[..|log| - 1])
    ensures Admissible(cfg, SummaryOf(log[..|log| - 1]), log[|log| - 1])
  {
    assert Asked(AboutHistory, 0);
  }

  /** A prefix of a legal history is legal, and each event was admissible when it came. */
  lemma {:induction false} LegalPrefix(cfg: Config, log: seq<Event>, k: nat)
    requires Legal(cfg, log) && k <= |log|
    ensures Legal(cfg, log[..k])
    ensures k < |log| ==> Admissible(cfg, SummaryOf(log[..k]), log[k])
    ensures k < |log| ==> SummaryOf(log[..k + 1]) == Next(SummaryOf(log[..k]), log[k])
    decreases |log|
  {
    assert Asked(AboutHistory, 0);
    assert log[..|log|] == log;
    if k < |log| {
      var init := log[..|log| - 1];
      assert init[..k] == log[..k];
      if k < |init| {
        LegalPrefix(cfg, init, k);
        assert init[..k + 1] == log[..k + 1];
      } else {
        assert log[..k + 1] == log;
      }
    }
  }
}
