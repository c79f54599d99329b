/**
  A whole life of a client: constructed, used by a program that may catch exceptions,
  called back by handlers that may call into it again, and closed by its destructor.
*/
module Sessions {
  import opened Bytes
  import opened Frames
  import opened Streams
  import opened FrameParsers
  import opened RandomKeys
  import opened Sockets
  import opened Calls
  import opened Trace
  import opened Theorems
  import opened Polls
  import opened Requests
  import opened Conformance
  import opened Clients
  import Words

  /**
    What a handler or the caller finds at index k: the connection is open exactly when it is
    HEALTHY, handlers have seen the data frames dispatched, and without a fault every ping
    has its pong and every close its close frame and its call of the close handler.
  */
  ghost predicate AccountsAgree(log: seq<Event>, k: nat)
    requires k < |log| && log[k].Boundary?
  {
    var m, sent := SummaryOf(log[..k]), AllDispatched(log[..k]);
    && (log[k].open <==> log[k].status == Healthy)
    && m.acc.handled == DataOf(sent)
    && (!m.faulted ==>
          && m.acc.pongs == PingsOf(sent)
          && m.acc.closesSent == m.acc.closeCalls == m.acc.serverCloses + m.acc.clientCloses)
  }

  /** Handlers look before anything else happens, and what they and callers find agrees. */
  ghost predicate ObserversServed(log: seq<Event>) {
    forall k :: 0 <= k < |log| ==>
      && (log[k].Boundary? ==> AccountsAgree(log, k))
      && (log[k].OnData? || log[k].OnClose? || log[k].Opened? ==> k + 1 < |log| && log[k + 1].Boundary?)
  }

  lemma ObserversAreServed(cfg: Config, log: seq<Event>)
    requires Legal(cfg, log) && Even(SummaryOf(log))
    ensures ObserversServed(log)
  {
    forall k | 0 <= k < |log|
      ensures log[k].Boundary? ==> AccountsAgree(log, k)
      ensures log[k].OnData? || log[k].OnClose? || log[k].Opened? ==> k + 1 < |log| && log[k + 1].Boundary?
    {
      if log[k].Boundary? {
        AccountsAgreeAt(cfg, log, k);
      } else if log[k].OnData? || log[k].OnClose? || log[k].Opened? {
        HandlersLookFirst(cfg, log, k);
      }
    }
  }

  lemma AccountsAgreeAt(cfg: Config, log: seq<Event>, k: nat)
    requires Legal(cfg, log) && k < |log| && log[k].Boundary?
    ensures AccountsAgree(log, k)
  {
    OpenIffHealthy(cfg, log, k);
    StreamToHandlers(cfg, log, k);
    FairAtBoundary(cfg, log, k);
  }

  /**
    The wire decodes to the frames offered to the socket exactly when every write went out in
    full; and then its data frames are those asked for.
  */
  ghost predicate WireDecodes(log: seq<Event>, wire: seq<byte>) {
    var m := SummaryOf(log);
    && (AllWritten(log) <==> UnmaskAll(DecodeAll(wire)) == NormalAll(m.outb.offered))
    && (AllWritten(log) ==> Remainder(wire) == [] && DataIn(UnmaskAll(DecodeAll(wire))) == m.acc.asked)
  }

  /**
    Scripts are carried out as planned; without a fault nothing of any script that started is
    lost, and if handlers and the program only send, it is asked for in this order.
  */
  ghost predicate RequestsServed(cfg: Config, log: seq<Event>, greetings: seq<Greeting>, program: seq<Call>) {
    var m := SummaryOf(log);
    && m.acc.asked == Plan(log) && m.run.handlers == 1 + HandlersCalled(m.acc)
    && (!m.faulted ==> m.acc.sent == m.acc.asked && multiset(m.acc.asked) == TallyOf(cfg, m.run))
    && (!m.faulted && AllOnlySend(cfg.scripts) && OnlySends(program) ==>
          m.acc.asked == GreetingsOf(greetings) + SendsOf(program) + LaterScripts(cfg.scripts, m.run.handlers))
  }

  lemma RequestsAreServed(cfg: Config, log: seq<Event>, greetings: seq<Greeting>, program: seq<Call>)
    requires Legal(cfg, log) && Even(SummaryOf(log)) && log != [] && log[0] == Opened
    requires SummaryOf(log).run.todo == Empty && SummaryOf(log).run.programs == 2
    requires cfg.scripts != [] && cfg.scripts[0] == CallsOf(greetings)
    requires |cfg.programs| == 2 && cfg.programs[0] == program && NoSends(cfg.programs[1])
    ensures RequestsServed(cfg, log, greetings, program)
  {
    var m := SummaryOf(log);
    RequestsFollowPlan(cfg, log);
    HandlersCounted(cfg, log);
    assert m.acc.asked + [] == m.acc.asked;
    if !m.faulted {
      RequestsConserved(cfg, log);
      if AllOnlySend(cfg.scripts) && OnlySends(program) {
        PlanInTurn(cfg, program, log);
        GreetingsAsked(greetings);
        SendsAsked(program);
      }
    }
  }

  /**
    For every environment, every program and all handlers: the history is legal; the bytes
    received are what the receive calls delivered, and the frames taken from the parser and
    its unread bytes make up exactly those received since the last close; status and wire are
    what the history says; every handler and every caller finds the accounts balanced; and
    the data frames on the wire are those that the program and the handlers ask for; and what
    is done about each frame, and each frame sent, is as the protocol's numbers say. An
    exception in the constructor leaves a legal history that begins with the opening.
  */
  method Session(pingFrequency: int, pingTimeout: int, seed1: Words.Word, seed2: Words.Word,
                 layout: Layout, garbage: Raw, recvs: seq<Recv>, writes: seq<int>, ticks: seq<nat>,
                 scripts: seq<seq<Call>>, accepted: bool, greetings: seq<Greeting>, program: seq<Call>)
    returns (up: bool, closed: bool, status: Status, open: bool, wire: seq<byte>, unread: seq<byte>,
             log: seq<Event>)
    ensures !accepted ==> !up && status == Failure && !open && log == []
    ensures accepted ==>
              var cfg := ConfigOf(pingFrequency, pingTimeout, SeedOf(seed1, seed2), layout, recvs, writes, ticks,
                                  greetings, scripts, program);
              var m := SummaryOf(log);
              && Legal(cfg, log) && Conforms(log) && log != [] && log[0] == Opened && (!up ==> m.faulted)
              && (up ==>
                    && Even(m) && NothingOwed(log[|log| - 1])
                    && ObserversServed(log) && RequestsServed(cfg, log, greetings, program)
                    && m.run.todo == Empty && m.run.programs == 2
                    && status == m.conn.status && (open <==> status == Healthy) && (closed ==> !open)
                    && AllReceived(log) == Delivered(recvs, m.inb.calls)
                    && m.inb.emitted + DecodeAll(unread) == DecodeAll(m.inb.received)
                    && wire == m.outb.wire && WireDecodes(log, wire))
  {
    ghost var programs := [program, [Call(Close(10), false)]];
    var c := new WSClient(pingFrequency, pingTimeout, seed1, seed2, layout, garbage,
                          recvs, writes, ticks, greetings, scripts, programs);
    up := c.Open(accepted);
    closed := false;
    if up {
      closed := Use(c, program);
    }
    status, open, wire, log := c.status, c.open, c.socket.wire, c.log;
    unread := [];
    if up {
      unread := Settle(c);
      RequestsAreServed(c.cfg, log, greetings, program);
    }
    if accepted {
      assert Legal(c.cfg, log) && c.now == SummaryOf(log) by { assert Asked(AboutHistory, 0); }
      LegalConforms(c.cfg, log);
    }
  }

  /** The owner runs a program and destroys the client, whether the program has thrown or not. */
  method Use(c: WSClient, program: seq<Call>) returns (closed: bool)
    requires c.Valid() && c.now.run == Run(Empty, 1, 0)
    requires c.cfg.programs == [program, [Call(Close(10), false)]]
    modifies c.Footprint()
    ensures c.Valid() && c.now.run.todo == Empty && c.now.run.programs == 2 && (closed ==> !c.open)
    ensures old(c.log) <= c.log
  {
    var ok := c.RunProgram(program);
    var success, frames;
    closed, success, frames := c.CloseProgram(10);
  }

  /** What is fixed when a client is constructed; its owner runs a program and then destroys it. */
  function ConfigOf(pingFrequency: int, pingTimeout: int, seed: State, layout: Layout,
                    recvs: seq<Recv>, writes: seq<int>, ticks: seq<nat>, greetings: seq<Greeting>,
                    scripts: seq<seq<Call>>, program: seq<Call>): Config
  {
    Config(pingFrequency * 1000, pingTimeout * 1000, layout, seed, recvs, writes, ticks,
           [CallsOf(greetings)] + scripts, [program, [Call(Close(10), false)]])
  }

  /** What the client's invariant says about its history, in so many words. */
  method Settle(c: WSClient) returns (unread: seq<byte>)
    requires c.Valid()
    ensures var m := SummaryOf(c.log);
            && Legal(c.cfg, c.log) && Even(m) && m.run == c.now.run && ObserversServed(c.log)
            && c.status == m.conn.status && (c.open <==> c.status == Healthy)
            && AllReceived(c.log) == Delivered(c.cfg.recvs, m.inb.calls)
            && m.inb.emitted + DecodeAll(unread) == DecodeAll(m.inb.received)
            && c.socket.wire == m.outb.wire && WireDecodes(c.log, c.socket.wire)
  {
    assert Asked(AboutHistory, 0);
    assert Asked(AboutInput, 0);
    assert Asked(AboutOutput, 0);
    unread := c.parser.Left();
    c.parser.EmittedThenUnread();
    OutputDecodes(c.cfg, c.log);
    if AllWritten(c.log) {
      RequestsOnTheWire(c.cfg, c.log);
    }
    ReceivedIsDelivered(c.cfg, c.log);
    ObserversAreServed(c.cfg, c.log);
  }

  // ------------------------------------------------------------ how often the close handler is called

  /** No receive call fails, and no ping is too long to answer. */
  ghost predicate Easy(recvs: seq<Recv>) {
    (forall i :: 0 <= i < |recvs| ==> recvs[i] != Failed) && NoLongPings(recvs)
  }

  /**
    A client that is opened and closed again, with nothing failing on the way. The close
    handler is called once for every close. If handlers only send, that is exactly once
    unless one of the first four turns of the poll meets the server's close; and if the first
    handler called closes, on a data frame, it is twice or more.
  */
  method OpenThenClose(pingFrequency: int, pingTimeout: int, seed1: Words.Word, seed2: Words.Word,
                       layout: Layout, garbage: Raw, recvs: seq<Recv>, ticks: seq<nat>,
                       scripts: seq<seq<Call>>, timeout: int)
    returns (ok: bool, log: seq<Event>)
    requires Easy(recvs)
    ensures var a := SummaryOf(log).acc;
            && ok && a.closeCalls == a.closesSent == a.serverCloses + a.clientCloses
            && (AllOnlySend(scripts) ==> (a.closeCalls == 1 <==> !MeetsClose(recvs, START.inb, 4)))
            && (AllOnlySend(scripts) && MeetsClose(recvs, START.inb, 4) ==>
                  a.serverCloses == 1 && a.clientCloses == 1)
            && (FirstCloses(scripts) && Found(recvs, START.inb).Some? && IsData(Found(recvs, START.inb).value) ==>
                  a.closeCalls >= 2)
  {
    ghost var programs := [[Call(Close(timeout), false)]];
    var c := new WSClient(pingFrequency, pingTimeout, seed1, seed2, layout, garbage,
                          recvs, [], ticks, [], scripts, programs);
    NothingYet(c.now);
    ok := c.Open(true);
    NoFaultYet(c);
    assert c.host.scripts == scripts;
    ok := CloseOnce(c, timeout);
    log := c.log;
  }

  method CloseOnce(c: WSClient, timeout: int) returns (ok: bool)
    requires c.Valid() && c.open && c.cfg.writes == [] && Easy(c.cfg.recvs)
    requires c.now.run == Run(Empty, 1, 0) && c.cfg.programs == [[Call(Close(timeout), false)]]
    requires SameCloses(START, c.now)
    modifies c.Footprint()
    ensures var a, scripts, recvs, i := SummaryOf(c.log).acc, old(c.host.scripts), c.cfg.recvs, old(c.now).inb;
            && ok && a.closeCalls == a.closesSent == a.serverCloses + a.clientCloses
            && (AllOnlySend(scripts) ==> (a.closeCalls == 1 <==> !MeetsClose(recvs, i, 4)))
            && (AllOnlySend(scripts) && MeetsClose(recvs, i, 4) ==> a.serverCloses == 1 && a.clientCloses == 1)
            && (FirstCloses(scripts) && Found(recvs, i).Some? && IsData(Found(recvs, i).value) ==> a.closeCalls >= 2)
  {
    var success, frames;
    ok, success, frames := c.CloseProgram(timeout);
    NoFaultYet(c);
    PollMeetsClose(c.cfg.recvs, old(c.now).inb, 4);
    assert Asked(AboutCounts, 0);
    assert c.now == SummaryOf(c.log) by { assert Asked(AboutHistory, 0); }
  }

  lemma NoFaultYet(c: WSClient)
    requires c.History() && c.cfg.writes == [] && Easy(c.cfg.recvs)
    ensures !c.now.faulted
  {
    assert Asked(AboutHistory, 0);
    NothingThrows(c.cfg, c.log);
  }

  /** The tape of a peer that sends one frame and nothing else. */
  lemma OneFrameTape(bytes: seq<byte>)
    requires IsFrame(bytes) && |bytes| <= 125
    ensures Easy([Data(bytes)])
    ensures Found([Data(bytes)], START.inb) == Some(Decode(bytes))
    ensures IsCloseFrame(Decode(bytes)) ==> MeetsClose([Data(bytes)], START.inb, 4)
  {
    var tape := [Data(bytes)];
    assert Drop(tape, 0) == tape && ReadResult(tape, 0) == Data(bytes);
    assert [] + bytes == bytes;
    assert Delivered(tape, 0) == [];
    assert Whole(tape) == bytes;
    assert DecodeAll(bytes)[0] == Decode(bytes);
    SmallStreamsAreEasy(tape);
    PollMeetsClose(tape, START.inb, 4);
  }

  /** An empty close frame, not masked. */
  function CloseBytes(): (s: seq<byte>)
    ensures IsFrame(s) && |s| == 2 && IsCloseFrame(Decode(s))
  {
    [136, 0]
  }

  /** An empty text frame, not masked. */
  function TextBytes(): (s: seq<byte>)
    ensures IsFrame(s) && |s| == 2 && IsData(Decode(s))
  {
    [129, 0]
  }

  /** The server's close is waiting when the client closes: two calls, whatever the handlers send. */
  method ServerClosesToo(seed1: Words.Word, seed2: Words.Word, layout: Layout, garbage: Raw, ticks: seq<nat>,
                         scripts: seq<seq<Call>>, timeout: int)
    returns (ok: bool, log: seq<Event>)
    requires AllOnlySend(scripts)
    ensures var a := SummaryOf(log).acc;
            ok && a.closeCalls == 2 && a.serverCloses == 1 && a.clientCloses == 1
  {
    OneFrameTape(CloseBytes());
    ok, log := OpenThenClose(60, 10, seed1, seed2, layout, garbage, [Data(CloseBytes())], ticks, scripts, timeout);
  }

  /** A text is waiting when the client closes, and its handler closes as well: two calls. */
  method HandlerClosesToo(seed1: Words.Word, seed2: Words.Word, layout: Layout, garbage: Raw, ticks: seq<nat>,
                          timeout: int)
    returns (ok: bool, log: seq<Event>)
    ensures ok && SummaryOf(log).acc.closeCalls >= 2
  {
    OneFrameTape(TextBytes());
    ok, log := OpenThenClose(60, 10, seed1, seed2, layout, garbage, [Data(TextBytes())], ticks,
                             [[Call(Close(10), false)]], timeout);
  }
}
