/**
  The client: polling, pinging, answering and closing, with handlers that may call back
  into it. The environment is an arbitrary finite tape: what the system calls return, how
  far the clock moves between readings, and what each handler call does.
*/
module Clients {
  import opened Bytes
  import opened Frames
  import opened FrameParsers
  import opened FrameFactories
  import opened RandomKeys
  import opened Sockets
  import opened Calls
  import opened Trace
  import opened Theorems
  import opened Polls
  import Words

  /** What a call returns: the status from `poll`, the success from `close`. */
  datatype Outcome = PollReturn(status: Status) | CloseReturn(success: bool) | SendReturn

  /** Where a poll began, and what was known then: see Polls.Polling. */
  datatype Since = Since(log: seq<Event>, now: Summary, quiet: bool, closing: bool, limit: nat)

  /** What the clock shows at the next reading. */
  function ClockAfter(now: int, ticks: seq<nat>): int {
    now + if ticks == [] then 0 else ticks[0]
  }

  class Host {
    var ticks: seq<nat>
    var now: nat
    var scripts: seq<seq<Call>>

    constructor (ticks: seq<nat>, scripts: seq<seq<Call>>)
      ensures this.ticks == ticks && now == 0 && this.scripts == scripts
    {
      this.ticks, now, this.scripts := ticks, 0, scripts;
    }

    method ReadClock() returns (t: nat)
      modifies this`ticks, this`now
      ensures t == now == old(now) + (if old(ticks) == [] then 0 else old(ticks)[0])
      ensures ticks == Rest(old(ticks))
    {
      if ticks != [] {
        now, ticks := now + ticks[0], ticks[1..];
      }
      t := now;
    }
  }

  class WSClient {
    const every: int
    const timeout: int
    const parser: FrameParser
    const factory: FrameFactory
    const socket: Socket
    const host: Host
    ghost const cfg: Config

    var status: Status
    var open: bool
    var waiting: bool
    var timerStart: int
    var lastRtt: int

    /** The history, kept for the proof; the source has no such field. */
    var log: seq<Event>
    ghost var now: Summary

    ghost function Footprint(): set<object> {
      {this, parser, parser.fb, factory.fb, factory.random, factory.random.rng,
       factory.random.cache, socket, host}
    }

    /** The parser has taken in these bytes and handed out these frames, after so many calls. */
    ghost predicate ReaderHolds(i: Inbound)
      reads parser, parser.fb, socket`recvs
    {
      && parser.Valid() && i.received == parser.Accepted() && i.emitted == parser.emitted
      && socket.recvs == Drop(cfg.recvs, i.calls)
    }

    ghost predicate ReaderAgrees(i: Inbound)
      reads parser, parser.fb, socket`recvs
    {
      forall k :: Asked(AboutInput, k) ==> ReaderHolds(i) && parser.Settled()
    }

    /** This much is on the wire, and so many keys are used up. */
    ghost predicate WriterAgrees(o: Outbound)
      reads factory, factory.fb, factory.random, factory.random.rng, factory.random.cache
      reads socket`wire, socket`writes
    {
      && parser.fb != factory.fb
      && (forall k :: Asked(AboutOutput, k) ==>
            && factory.Valid() && o.wire == socket.wire && (cfg.writes == [] ==> socket.writes == [])
            && factory.random.Position() == 4 * |o.offered|
            && cfg.layout == factory.random.rng.layout && cfg.seed == factory.random.rng.seed)
    }

    ghost predicate StateAgrees(c: Conn)
      reads this, host
    {
      && cfg.every == every && cfg.timeout == timeout
      && status == c.status && (open <==> status == Healthy)
      && (c.timer.Running? ==> c.timer == Running(waiting, timerStart))
      && lastRtt == c.rtt && ClockAgrees(c.readings)
    }

    /** The clock has been read so many times. */
    ghost predicate ClockAgrees(n: nat)
      reads host
    {
      forall k :: Asked(AboutClock, k) ==>
        host.now == Reading(cfg.ticks, n) && host.ticks == Drop(cfg.ticks, n)
    }

    /** The handlers to be called next are those that come after the ones called so far. */
    ghost predicate ScriptsAgree(r: Run)
      reads host
    {
      forall k :: Asked(AboutScripts, k) ==> host.scripts == Drop(cfg.scripts, r.handlers)
    }

    /** The history is legal and amounts to this summary. */
    ghost predicate History()
      reads this`log, this`now
    {
      forall k :: Asked(AboutHistory, k) ==> Legal(cfg, log) && now == SummaryOf(log)
    }

    /** The history is legal, and the wire and the key cache are what it says. */
    ghost predicate OutputWired()
      reads this`log, this`now, factory, factory.fb, factory.random, factory.random.rng
      reads factory.random.cache, socket`wire, socket`writes
    {
      History() && WriterAgrees(now.outb)
    }

    /** The history is legal, and the parser is where it says. */
    ghost predicate InputWired()
      reads this`log, this`now, parser, parser.fb, socket`recvs
    {
      History() && ReaderAgrees(now.inb)
    }

    /** The history is legal and every field is what it says. */
    ghost predicate Wired()
      reads this, parser, parser.fb, factory, factory.fb, factory.random, factory.random.rng
      reads factory.random.cache, socket, host
    {
      OutputWired() && InputWired() && StateWired()
    }

    /** What holds whenever a handler or the caller is in control. */
    ghost predicate Valid()
      reads this, parser, parser.fb, factory, factory.fb, factory.random, factory.random.rng
      reads factory.random.cache, socket, host
    {
      Wired() && Even(now) && now.conn.timer.Running?
    }

    /**
      The frequency and the timeout come in seconds and are kept in milliseconds. The first
      handler is the open handler, with the greetings; `programs` is what is going to be done
      with the client, which the source does not know.
    */
    constructor (pingFrequency: int, pingTimeout: int, seed1: Words.Word, seed2: Words.Word, layout: Layout,
                 garbage: Raw, recvs: seq<Recv>, writes: seq<int>, ticks: seq<nat>,
                 greetings: seq<Greeting>, scripts: seq<seq<Call>>, ghost programs: seq<seq<Call>>)
      ensures Wired() && log == [] && Untouched(now) && fresh(Footprint())
      ensures host.scripts == [CallsOf(greetings)] + scripts
      ensures cfg == Config(pingFrequency * 1000, pingTimeout * 1000, layout, SeedOf(seed1, seed2),
                            recvs, writes, ticks, host.scripts, programs)
    {
      every, timeout := pingFrequency * 1000, pingTimeout * 1000;
      parser := new FrameParser(garbage);
      factory := new FrameFactory(seed1, seed2, layout);
      socket := new Socket(recvs, writes);
      host := new Host(ticks, [CallsOf(greetings)] + scripts);
      cfg := Config(pingFrequency * 1000, pingTimeout * 1000, layout, SeedOf(seed1, seed2), recvs, writes, ticks,
                    [CallsOf(greetings)] + scripts, programs);
      status, open, waiting, timerStart, lastRtt := Unknown, false, false, 0, 0;
      log, now := [], START;
      new;
      assert OutputWired();
      assert InputWired();
    }

    method Note(e: Event)
      requires History() && Admissible(cfg, now, e)
      modifies this`log, this`now
      ensures History() && log == old(log) + [e] && now == Next(old(now), e)
    {
      assert Asked(AboutHistory, 0);
      Extend(cfg, log, e);
      log := log + [e];
      now := Next(now, e);
    }

    /** Since then, faults are not forgotten and counts have only grown. */
    twostate lemma Grew()
      requires old(History()) && History() && old(log) <= log
      ensures Later(old(now), now)
    {
      assert Asked(AboutHistory, 0);
      LaterAlong(old(log), log);
    }

    // ---------------------------------------------------------- opening

    /** What connect decides from the response, and what the open handler gets to see. */
    method Accept()
      requires StateWired() && Untouched(now)
      modifies this`log, this`now, this`status, this`open
      ensures StateWired() && Fair(now) && now.due.Enter? && now.conn.timer == Stopped
      ensures now.inb == old(now).inb && now.outb == old(now).outb && now.run == Run(Empty, 0, 0)
      ensures SameCloses(old(now), now)
      ensures log == old(log) + [Opened, Boundary(Healthy, true)] && open
    {
      NothingYet(now);
      open := true;
      status := Healthy;
      NoteOpened(Opened);
      Note(Boundary(status, open));
    }

    method NoteOpened(e: Event)
      requires History() && e == Opened && Admissible(cfg, now, e) && Even(now)
      modifies this`log, this`now
      ensures History() && log == old(log) + [e] && Fair(now) && now.due == Show(true)
      ensures now == old(now).(conn := old(now).conn.(status := Healthy), due := now.due)
    {
      OpeningBalances(now, e);
      Note(e);
    }

    /** The open handler sends in order, up to the first exception that it does not catch. */
    method Greet(script: seq<Call>) returns (ok: bool, n: nat)
      requires OutputWired() && StateWired() && Even(now) && OnlySends(script)
      requires now.run.todo == On(Script(script, false), Empty)
      modifies this`log, this`now, factory.fb, factory.random`cachePtr, factory.random.rng
      modifies factory.random.cache, socket`writes, socket`wire
      ensures OutputWired() && StateWired() && Even(now) && old(log) <= log
      ensures now.conn == old(now).conn && now.inb == old(now).inb && SameCloses(old(now), now)
      ensures now.run == old(now).run.(todo := On(Script([], false), Empty))
      ensures n <= |script| && (ok ==> n == |script|) && (!ok ==> now.faulted)
      ensures Greeted(old(now).outb.offered, now.outb.offered, script[..n])
    {
      n := 0;
      ok := true;
      while n < |script|
        invariant OutputWired() && StateWired() && Even(now) && old(log) <= log
        invariant now.conn == old(now).conn && now.inb == old(now).inb && SameCloses(old(now), now)
        invariant n <= |script|
        invariant now.run == old(now).run.(todo := On(Script(script[n..], false), Empty))
        invariant Greeted(old(now).outb.offered, now.outb.offered, script[..n])
      {
        var call := script[n];
        assert script[n..][1..] == script[n + 1..];
        ok := SendCall(call.op);
        n := n + 1;
        if !ok && !call.catches {
          return;
        }
      }
      ok := true;
      assert script[n..] == [];
    }

    /** One send, from the call to its return. */
    method SendCall(op: Op) returns (ok: bool)
      requires OutputWired() && StateWired() && Even(now) && IsSend(op) && Ready(now.run, op)
      modifies this`log, this`now, factory.fb, factory.random`cachePtr, factory.random.rng
      modifies factory.random.cache, socket`writes, socket`wire
      ensures OutputWired() && StateWired() && Even(now) && old(log) <= log
      ensures now.conn == old(now).conn && now.inb == old(now).inb && SameCloses(old(now), now)
      ensures now.run == Returning(Calling(old(now).run), ok) && (!ok ==> now.faulted)
      ensures |now.outb.offered| == |old(now).outb.offered| + 1 && old(now).outb.offered <= now.outb.offered
      ensures var f := now.outb.offered[|old(now).outb.offered|]; Request(f.opcode, f.payload) == Asked1(op)
    {
      ghost var before := now;
      NoteCalled(op);
      ok := SendData(Asked1(op), before);
      NoteReturn(ok);
    }

    /** The end of a call: its caller sees the connection. */
    method NoteReturn(ok: bool)
      requires StateWired() && Even(now) && InCall(now.run) && (!ok ==> now.faulted)
      modifies this`log, this`now
      ensures StateWired() && Even(now) && log == old(log) + [Returned(ok), Boundary(status, open)]
      ensures now == old(now).(run := Returning(old(now).run, ok))
    {
      Note(Returned(ok));
      Note(Boundary(status, open));
    }

    method StartTimer()
      requires StateWired() && now.conn.timer == Stopped && now.due.Clear?
      modifies this`log, this`now, this`waiting, this`timerStart, host`ticks, host`now
      ensures StateWired() && log == old(log) + [Started(timerStart)]
      ensures now == Next(old(now), Started(timerStart)) && timerStart == host.now
    {
      ghost var n := now.conn.readings;
      waiting := true;
      timerStart := ReadClock(n);
      NoteStart(timerStart);
    }

    method NoteStart(at: int)
      requires History() && Admissible(cfg, now, Started(at))
      modifies this`log, this`now
      ensures History() && log == old(log) + [Started(at)] && now == Next(old(now), Started(at))
      ensures now.conn == old(now).conn.(timer := Running(true, at), readings := old(now).conn.readings + 1)
    {
      Note(Started(at));
    }

    /** The rest of the constructor; `ok` is false when it throws and there is no client. */
    method Open(accepted: bool) returns (ok: bool)
      requires Wired() && Untouched(now) && host.scripts != [] && OnlySends(host.scripts[0])
      modifies Footprint()
      ensures old(log) <= log && (ok ==> Valid() && open && EndsWithFirstPing(log, timerStart))
      ensures ok ==> now.inb == old(now).inb && SameCloses(old(now), now) && host.scripts == old(host.scripts)[1..]
      ensures ok ==> now.run == Run(Empty, 1, 0)
      ensures accepted ==> |log| > |old(log)| && log[|old(log)|] == Opened && (!ok ==> now.faulted)
      ensures accepted ==> History()
      ensures !accepted ==> !ok && status == Failure && !open && log == old(log)
    {
      if !accepted {
        open := false;
        status := Failure;
        return false;
      }
      ok := OpenUp();
    }

    method OpenUp() returns (ok: bool)
      requires Wired() && Untouched(now) && host.scripts != [] && OnlySends(host.scripts[0])
      modifies Footprint()
      ensures old(log) <= log && (ok ==> Valid() && open && EndsWithFirstPing(log, timerStart))
      ensures ok ==> now.inb == old(now).inb && SameCloses(old(now), now)
      ensures ok ==> host.scripts == old(host.scripts)[1..] && now.run == Run(Empty, 1, 0)
      ensures |log| > |old(log)| && log[|old(log)|] == Opened && (!ok ==> now.faulted) && History()
    {
      ok := Welcome();
      if ok {
        ok := BeginPinging();
      }
    }

    method BeginPinging() returns (ok: bool)
      requires Wired() && Even(now) && now.conn.timer == Stopped
      modifies this`log, this`now, this`waiting, this`timerStart, host`ticks, host`now
      modifies factory.fb, factory.random`cachePtr, factory.random.rng, factory.random.cache
      modifies socket`writes, socket`wire
      ensures Valid() && now.inb == old(now).inb && SameCloses(old(now), now) && (!ok ==> now.faulted)
      ensures now.run == old(now).run
      ensures old(log) <= log && (ok ==> EndsWithFirstPing(log, timerStart))
    {
      StartTimer();
      ok := FirstPing();
    }

    method Welcome() returns (ok: bool)
      requires Wired() && Untouched(now) && host.scripts != [] && OnlySends(host.scripts[0])
      modifies this`log, this`now, this`status, this`open, host`scripts
      modifies factory.fb, factory.random`cachePtr
      modifies factory.random.rng, factory.random.cache, socket`writes, socket`wire
      ensures Wired() && Even(now) && now.conn.timer == Stopped && open && (!ok ==> now.faulted)
      ensures now.inb == old(now).inb && SameCloses(old(now), now) && now.run == Run(Empty, 1, 0)
      ensures host.scripts == old(host.scripts)[1..]
      ensures |log| > |old(log)| && old(log) <= log && log[|old(log)|] == Opened
    {
      var script := BeginGreeting();
      var n;
      ok, n := Greet(script);
      NoteEnd();
    }

    method BeginGreeting() returns (script: seq<Call>)
      requires StateWired() && Untouched(now) && host.scripts != []
      modifies this`log, this`now, this`status, this`open, host`scripts
      ensures StateWired() && Even(now) && open && script == old(host.scripts)[0]
      ensures host.scripts == old(host.scripts)[1..]
      ensures now.inb == old(now).inb && now.outb == old(now).outb && SameCloses(old(now), now)
      ensures now.conn.timer == Stopped
      ensures now.run == Run(On(Script(script, false), Empty), 1, 0)
      ensures log == old(log) + [Opened, Boundary(Healthy, true), Entered(script)]
    {
      Accept();
      script := EnterHandler();
    }

    /** A public call begins. */
    method NoteCalled(op: Op)
      requires StateWired() && Even(now) && Ready(now.run, op)
      modifies this`log, this`now
      ensures StateWired() && log == old(log) + [Called(op)]
      ensures now == old(now).(run := Calling(old(now).run),
                               due := if IsSend(op) then Ask(Asked1(op)) else Clear,
                               acc := old(now).acc.(asked := old(now).acc.asked + AskedBy(op)))
    {
      Note(Called(op));
    }

    /** A script comes to its end. */
    method NoteEnd()
      requires StateWired() && Even(now) && now.run.todo.On? && now.run.todo.top == Script([], false)
      modifies this`log, this`now
      ensures StateWired() && Even(now) && log == old(log) + [Ended]
      ensures now == old(now).(run := old(now).run.(todo := old(now).run.todo.below))
    {
      Note(Ended);
    }

    /** The next handler starts its script. */
    method EnterHandler() returns (script: seq<Call>)
      requires StateWired() && Fair(now) && now.due.Enter? && (now.run.handlers > 0 ==> Inside(now.run))
      modifies this`log, this`now, host`scripts
      ensures StateWired() && Even(now) && log == old(log) + [Entered(script)]
      ensures script == ScriptAt(old(host.scripts), 0) && host.scripts == Rest(old(host.scripts))
      ensures now == old(now).(run := Entering(old(now).run, script).(handlers := old(now).run.handlers + 1),
                               due := Clear)
    {
      assert Asked(AboutScripts, 0);
      DropRest(cfg.scripts, now.run.handlers);
      script := [];
      if host.scripts != [] {
        script, host.scripts := host.scripts[0], host.scripts[1..];
      }
      Note(Entered(script));
    }

    method FirstPing() returns (ok: bool)
      requires Wired() && now.conn.timer.Running? && OnePingShort(now)
      modifies this`log, this`now, factory.fb, factory.random`cachePtr, factory.random.rng
      modifies factory.random.cache, socket`writes, socket`wire
      ensures Valid() && now.inb == old(now).inb && SameCloses(old(now), now) && (!ok ==> now.faulted)
      ensures now.run == old(now).run
      ensures |log| == |old(log)| + 1 && old(log) <= log && IsOwnPing(log[|old(log)|], ok)
    {
      var e;
      ok, e := SendFrame(PING, []);
    }

    // ---------------------------------------------------------- sending

    /** Text and binary frames of any size, control frames unless they are too long. */
    method Print(opcode: byte, payload: seq<byte>) returns (p: Printed)
      requires factory.Valid()
      modifies factory.fb, factory.random`cachePtr, factory.random.rng, factory.random.cache
      ensures factory.Valid()
      ensures p == TooLong <==> opcode in {PING, PONG, CLOSE} && |payload| > MAX_CONTROL
      ensures p == TooLong ==>
                factory.random.Position() == old(factory.random.Position())
      ensures p != TooLong ==>
                && p == Printed(Frame(true, opcode, true, old(factory.NextKey()), payload), Encode(p.frame))
                && factory.random.Position() == old(factory.random.Position()) + 4
    {
      if opcode in {PING, PONG, CLOSE} {
        p := factory.Control(opcode, true, payload);
      } else {
        p := factory.Construct(true, opcode, true, payload);
      }
    }

    /** Prints a frame with the next key and sends it; `ok` is false on an exception. */
    method SendFrame(opcode: byte, payload: seq<byte>) returns (ok: bool, e: Event)
      requires OutputWired() && MaySend(now.due, opcode, payload)
      modifies this`log, this`now, factory.fb, factory.random`cachePtr, factory.random.rng
      modifies factory.random.cache, socket`writes, socket`wire
      ensures OutputWired() && log == old(log) + [e] && now == Next(old(now), e)
      ensures e.Refused? || e.Wrote?
      ensures e.Refused? <==> opcode in {PING, PONG, CLOSE} && |payload| > MAX_CONTROL
      ensures e.Refused? ==> !ok && e.opcode == opcode && e.payload == payload
      ensures e.Wrote? ==> e.ok == ok && e.frame.opcode == opcode && e.frame.payload == payload
      ensures now.conn == old(now).conn && now.inb == old(now).inb && now.run == old(now).run
      ensures SameCloses(old(now), now) && (!ok ==> now.faulted)
    {
      assert Asked(AboutOutput, 0);
      var p := Print(opcode, payload);
      if p == TooLong {
        ok, e := false, Refused(opcode, payload);
        Note(e);
      } else {
        ok, e := Transmit(p.frame, p.bytes);
      }
    }

    method Transmit(f: Frame, bytes: seq<byte>) returns (ok: bool, e: Event)
      requires History() && now.outb.wire == socket.wire && bytes == Encode(f)
      requires cfg.writes == [] ==> socket.writes == []
      requires KeyInTurn(cfg, now.outb, f) && MaySend(now.due, f.opcode, f.payload)
      requires f.opcode in {PING, PONG, CLOSE} ==> |f.payload| <= 125
      modifies this`log, this`now, socket`writes, socket`wire
      ensures History() && log == old(log) + [e] && now == Next(old(now), e)
      ensures e.Wrote? && e.frame == f && e.ok == ok
      ensures now.outb == Outbound(socket.wire, old(now).outb.offered + [f])
      ensures cfg.writes == [] ==> socket.writes == []
    {
      var count;
      ok, count := socket.Send(bytes);
      e := Wrote(f, count, ok);
      Note(e);
    }

    // ---------------------------------------------------------- receiving

    /** read_into: new bytes go behind what the parser has not read yet. */
    method Fetch() returns (ok: bool, newData: bool)
      requires InputWired() && now.due.Clear?
      modifies this`log, this`now, parser.fb, socket`recvs
      ensures History() && ReaderHolds(now.inb) && (newData || parser.Settled())
      ensures !ok ==> parser.Settled()
      ensures var e := ReadEvent(cfg.recvs, old(now).inb.calls);
              (ok <==> e.Received?) && log == old(log) + [e] && now == Next(old(now), e)
    {
      assert Asked(AboutInput, 0);
      var got;
      DropRest(cfg.recvs, now.inb.calls);
      ok, newData, got := socket.ReadInto(parser.fb, READ_LIMIT);
      parser.Grown(got);
      if ok {
        Note(Received(got));
      } else {
        Note(RecvFailed);
      }
    }

    /** update: the next frame, in stream order, or the news that there is none yet. */
    method Take(newData: bool) returns (f: Option<Frame>)
      requires History() && now.due.Clear? && ReaderHolds(now.inb) && (newData || parser.Settled())
      modifies this`log, this`now, parser, parser.fb
      ensures InputWired() && f == NextFrame(old(now).inb)
      ensures var e := if f.Some? then Dispatched(f.value) else Quiet;
              log == old(log) + [e] && now == Next(old(now), e)
    {
      var r := parser.Update(newData);
      parser.EmittedThenUnread();
      if r.Some? {
        f := Some(Observe(r.value, parser.fb.Contents()));
        Note(Dispatched(f.value));
      } else {
        f := None;
        Note(Quiet);
      }
    }

    // ---------------------------------------------------------- pings and pongs

    /** The fields agree with the history, whatever the parser and the socket do. */
    ghost predicate StateWired()
      reads this, host
    {
      History() && StateAgrees(now.conn) && ScriptsAgree(now.run)
    }

    /** The next reading of the clock. */
    method ReadClock(ghost n: nat) returns (t: int)
      requires ClockAgrees(n)
      modifies host`ticks, host`now
      ensures ClockAgrees(n + 1) && t == host.now == Reading(cfg.ticks, n + 1)
      ensures t == ClockAfter(old(host.now), old(host.ticks)) && host.ticks == Rest(old(host.ticks))
    {
      assert Asked(AboutClock, 0);
      DropRest(cfg.ticks, n);
      t := host.ReadClock();
    }

    method HandlePong()
      requires StateWired() && now.conn.timer.Running?
      requires now.due.Act? && now.due.frame.opcode == PONG
      modifies this`log, this`now, this`waiting, this`timerStart, this`lastRtt, host`ticks, host`now
      ensures StateWired() && timerStart == host.now && !waiting
      ensures var looked := ClockAfter(old(host.now), old(host.ticks));
              && lastRtt == looked - old(timerStart) && timerStart == ClockAfter(looked, Rest(old(host.ticks)))
              && log == old(log) + [PongAt(looked, timerStart)] && now == Next(old(now), PongAt(looked, timerStart))
    {
      var looked := Measure(now.conn.readings);
      NotePong(looked, timerStart);
    }

    method Measure(ghost n: nat) returns (looked: int)
      requires ClockAgrees(n)
      modifies this`waiting, this`timerStart, this`lastRtt, host`ticks, host`now
      ensures ClockAgrees(n + 2) && timerStart == host.now && !waiting
      ensures looked == ClockAfter(old(host.now), old(host.ticks)) == Reading(cfg.ticks, n + 1)
      ensures timerStart == ClockAfter(looked, Rest(old(host.ticks))) == Reading(cfg.ticks, n + 2)
      ensures lastRtt == looked - old(timerStart)
    {
      looked := ReadClock(n);
      lastRtt := looked - timerStart;
      timerStart := ReadClock(n + 1);
      waiting := false;
    }

    method NotePong(looked: int, at: int)
      requires History() && Admissible(cfg, now, PongAt(looked, at))
      modifies this`log, this`now
      ensures History() && log == old(log) + [PongAt(looked, at)] && now == Next(old(now), PongAt(looked, at))
      ensures now.conn == var c := old(now).conn;
                          c.(timer := Running(false, at), rtt := looked - c.timer.since, readings := c.readings + 2)
    {
      Note(PongAt(looked, at));
    }

    /** The decision of update_ping at one reading of the clock; a ping reads it again to restart. */
    method TickTimer() returns (looked: int, action: Action)
      requires StateWired() && now.conn.timer.Running? && now.due.Clear?
      modifies this`log, this`now, this`status, this`open, this`waiting, this`timerStart, host`ticks, host`now
      ensures StateWired() && log == old(log) + [Tick(looked, action, host.now)]
      ensures now == Next(old(now), Tick(looked, action, host.now))
      ensures looked == ClockAfter(old(host.now), old(host.ticks))
      ensures action == SendPing <==> !old(waiting) && looked - old(timerStart) > every
      ensures action == Expire <==> old(waiting) && looked - old(timerStart) > timeout
      ensures action == SendPing ==> waiting && timerStart == ClockAfter(looked, Rest(old(host.ticks)))
      ensures action == Expire ==> !open && status == PingTimedOut
      ensures action != SendPing ==> waiting == old(waiting) && timerStart == old(timerStart)
      ensures action != Expire ==> open == old(open) && status == old(status)
    {
      looked, action := LookAtTimer(now.conn.readings);
      NoteTick(looked, action, host.now);
    }

    method LookAtTimer(ghost n: nat) returns (looked: int, action: Action)
      requires ClockAgrees(n)
      modifies this`status, this`open, this`waiting, this`timerStart, host`ticks, host`now
      ensures ClockAgrees(if action == SendPing then n + 2 else n + 1)
      ensures looked == ClockAfter(old(host.now), old(host.ticks)) == Reading(cfg.ticks, n + 1)
      ensures host.now == if action == SendPing then Reading(cfg.ticks, n + 2) else looked
      ensures action == SendPing <==> !old(waiting) && looked - old(timerStart) > every
      ensures action == Expire <==> old(waiting) && looked - old(timerStart) > timeout
      ensures action == SendPing ==>
                waiting && timerStart == host.now == ClockAfter(looked, Rest(old(host.ticks)))
      ensures action == Expire ==> !open && status == PingTimedOut
      ensures action != SendPing ==> waiting == old(waiting) && timerStart == old(timerStart)
      ensures action != Expire ==> open == old(open) && status == old(status)
    {
      looked := ReadClock(n);
      action := Idle;
      if waiting {
        if looked - timerStart > timeout {
          open := false;
          status := PingTimedOut;
          action := Expire;
        }
      } else {
        if looked - timerStart > every {
          waiting := true;
          timerStart := ReadClock(n + 1);
          action := SendPing;
        }
      }
    }

    method NoteTick(looked: int, a: Action, at: int)
      requires History() && Admissible(cfg, now, Tick(looked, a, at))
      modifies this`log, this`now
      ensures History() && log == old(log) + [Tick(looked, a, at)] && now == Next(old(now), Tick(looked, a, at))
      ensures now.conn == var c, n := old(now).conn, old(now).conn.readings;
                          match a
                          case Idle => c.(readings := n + 1)
                          case SendPing => c.(timer := Running(true, at), readings := n + 2)
                          case Expire => c.(status := PingTimedOut, readings := n + 1)
    {
      Note(Tick(looked, a, at));
    }

    /** One tick, and a ping exactly when it asks for one. */
    method UpdatePing() returns (ok: bool)
      requires OutputWired() && StateWired() && Even(now) && now.conn.timer.Running?
      modifies this`log, this`now, this`status, this`open, this`waiting, this`timerStart, host`ticks, host`now
      modifies factory.fb, factory.random`cachePtr, factory.random.rng, factory.random.cache
      modifies socket`writes, socket`wire
      ensures OutputWired() && StateWired() && Even(now) && now.conn.timer.Running?
      ensures now.inb == old(now).inb && SameCloses(old(now), now) && (!ok ==> now.faulted)
      ensures now.run == old(now).run && Ticked(old(log), log, ok)
      ensures log[|old(log)|].looked == ClockAfter(old(host.now), old(host.ticks))
      ensures log[|old(log)|].action == SendPing
              <==> !old(waiting) && log[|old(log)|].looked - old(timerStart) > every
      ensures log[|old(log)|].action == Expire
              <==> old(waiting) && log[|old(log)|].looked - old(timerStart) > timeout
    {
      ghost var m := now;
      var looked, action := TickTimer();
      ok := true;
      if action == SendPing {
        var e;
        ok, e := SendFrame(PING, []);
        PingBalances(m, looked, host.now, e);
      }
    }

    // ---------------------------------------------------------- handlers

    /** The parser, its buffer and the number of closes are as they were. */
    twostate predicate Undisturbed()
      reads this, parser, parser.fb
    {
      && now.inb == old(now).inb
      && ServerCloses(old(now), now) == 0 && ClientCloses(old(now), now) == 0
      && parser.raw == old(parser.raw) && parser.fb.buf == old(parser.fb.buf) && parser.fb.ptr == old(parser.fb.ptr)
    }

    /**
      Calls a handler: it sees the status, then does what its script says. That may be to
      call the client again, which is why everything has to be in order at this point. A
      handler that only sends leaves the parser alone, and with it the payload it was given.
    */
    method CallHandler(e: Event) returns (ok: bool)
      requires Wired() && Admissible(cfg, now, e) && (e.OnData? || e.OnClose?) && Inside(now.run)
      requires Fair(Next(now, e)) && now.conn.timer.Running?
      modifies Footprint()
      ensures Valid() && |host.scripts| <= old(|host.scripts|) && (!ok ==> now.faulted)
      ensures Resumed(old(now).run, now.run) && EndsWithHandler(log)
      ensures old(log) + [e, Boundary(old(status), old(open)), Entered(ScriptAt(old(host.scripts), 0))] <= log
      ensures old(AllOnlySend(host.scripts)) ==> AllOnlySend(host.scripts) && Undisturbed()
      ensures old(FirstCloses(host.scripts) && open) && !now.faulted ==> ClientCloses(old(now), now) >= 1
      decreases |host.scripts|, 2
    {
      NoteCall(e);
      ok := RunHandler();
    }

    method NoteCall(e: Event)
      requires StateWired() && Admissible(cfg, now, e) && (e.OnData? || e.OnClose?)
      requires Fair(Next(now, e))
      modifies this`log, this`now
      ensures StateWired() && log == old(log) + [e, Boundary(status, open)]
      ensures now == Next(old(now), e).(due := Enter)
    {
      Note(e);
      Note(Boundary(status, open));
    }

    /** A handler's script, from its start to its end. */
    method RunHandler() returns (ok: bool)
      requires Wired() && Fair(now) && now.due.Enter? && now.conn.timer.Running? && Inside(now.run)
      modifies Footprint()
      ensures Valid() && |host.scripts| <= old(|host.scripts|) && (!ok ==> now.faulted)
      ensures old(log) + [Entered(ScriptAt(old(host.scripts), 0))] <= log && EndsWithHandler(log)
      ensures Resumed(old(now).run, now.run)
      ensures old(AllOnlySend(host.scripts)) ==> AllOnlySend(host.scripts) && Undisturbed()
      ensures old(FirstCloses(host.scripts) && open) && !now.faulted ==> ClientCloses(old(now), now) >= 1
      decreases |host.scripts|, 1
    {
      ghost var scripts := host.scripts;
      var script := EnterHandler();
      if scripts != [] && AllOnlySend(scripts) {
        OthersOnlySend(scripts);
      }
      ok := RunEntered(script);
    }

    method RunEntered(script: seq<Call>) returns (ok: bool)
      requires Valid() && now.run.todo.On? && now.run.todo.top == Script(script, false)
      modifies Footprint()
      ensures Valid() && old(log) <= log && |host.scripts| <= old(|host.scripts|) && (!ok ==> now.faulted)
      ensures Resumed(old(now).run.(todo := old(now).run.todo.below), now.run) && EndsWithHandler(log)
      ensures OnlySends(script) ==> host.scripts == old(host.scripts) && Undisturbed()
      ensures script != [] && script[0].op.Close? && old(open) && !now.faulted ==>
                ClientCloses(old(now), now) >= 1
      decreases |host.scripts|, if script == [] then 0 else 14
    {
      ok := true;
      if script != [] {
        ok := RunCalls(script);
      }
      NoteEnd();
    }

    /** A program of the owner of the client, from its start to its end. */
    method RunProgram(script: seq<Call>) returns (ok: bool)
      requires Valid() && Admissible(cfg, now, Launched(script))
      modifies Footprint()
      ensures Valid() && |host.scripts| <= old(|host.scripts|) && (!ok ==> now.faulted)
      ensures old(log) + [Launched(script)] <= log && EndsWithHandler(log)
      ensures Resumed(old(now).run.(programs := old(now).run.programs + 1), now.run)
      decreases |host.scripts|, 15
    {
      Note(Launched(script));
      ok := RunEntered(script);
    }

    /**
      Makes the calls of a script one after the other, until one throws and is not caught: the
      history does not let a script end before that.
    */
    method RunCalls(script: seq<Call>) returns (ok: bool)
      requires Valid() && now.run.todo.On? && now.run.todo.top == Script(script, false)
      modifies Footprint()
      ensures Valid() && old(log) <= log && |host.scripts| <= old(|host.scripts|) && (!ok ==> now.faulted)
      ensures Resumed(old(now).run.(todo := On(Script([], false), old(now).run.todo.below)), now.run)
      ensures OnlySends(script) ==> host.scripts == old(host.scripts) && Undisturbed()
      ensures script != [] && script[0].op.Close? && old(open) && !now.faulted ==>
                ClientCloses(old(now), now) >= 1
      decreases |host.scripts|, 13
    {
      ok := true;
      for i := 0 to |script|
        invariant Valid() && old(log) <= log && |host.scripts| <= old(|host.scripts|)
        invariant Resumed(old(now).run.(todo := On(Script(script[i..], false), old(now).run.todo.below)), now.run)
        invariant i == 0 ==> now == old(now) && open == old(open)
        invariant OnlySends(script) ==> host.scripts == old(host.scripts) && Undisturbed()
        invariant i > 0 && script[0].op.Close? && old(open) && !now.faulted ==>
                    ClientCloses(old(now), now) >= 1
      {
        label Before:
        var ret;
        assert script[i..][1..] == script[i + 1..];
        ok, ret := Invoke(script[i].op);
        Grew@Before();
        if !ok && !script[i].catches {
          return false;
        }
      }
      ok := true;
    }

    /** Any public call; whatever it does, the caller sees the status when it returns. */
    method Invoke(op: Op) returns (ok: bool, ret: Outcome)
      requires Valid() && Ready(now.run, op)
      modifies Footprint()
      ensures Valid() && |host.scripts| <= old(|host.scripts|) && (!ok ==> now.faulted)
      ensures Resumed(Returning(Calling(old(now).run), ok), now.run)
      ensures Invoked(op, old(open), old(log), log, ok, ret, status, open)
      ensures IsSend(op) ==> host.scripts == old(host.scripts) && Undisturbed()
      ensures op.Close? && old(open) && ok ==> ClientCloses(old(now), now) >= 1
      decreases |host.scripts|, 12
    {
      ghost var before := now;
      NoteCalled(op);
      ghost var l := log;
      ok, ret := Perform(op, before);
      ghost var k := log;
      NoteReturn(ok);
      InvokedBy(op, old(open), old(log), l, k, log, ok, ret, status, open);
    }

    method Perform(op: Op, ghost before: Summary) returns (ok: bool, ret: Outcome)
      requires Wired() && Even(before) && now.conn.timer.Running? && Ready(before.run, op)
      requires now == before.(run := Calling(before.run),
                              due := if IsSend(op) then Ask(Asked1(op)) else Clear,
                              acc := before.acc.(asked := before.acc.asked + AskedBy(op)))
      modifies Footprint()
      ensures Valid() && old(log) <= log && |host.scripts| <= old(|host.scripts|) && (!ok ==> now.faulted)
      ensures Resumed(old(now).run, now.run)
      ensures Performed(op, old(open), old(log), log, ok, ret, status, open)
      ensures IsSend(op) ==> host.scripts == old(host.scripts) && Undisturbed()
      ensures op.Close? && old(open) && ok ==> ClientCloses(old(now), now) >= 1
      decreases |host.scripts|, 11
    {
      match op
      case Poll(maxReads) =>
        var closed, frames;
        ghost var at;
        ok, closed, frames, at := DoPoll(maxReads);
        ret := PollReturn(status);
      case Close(timeout) =>
        var success, frames;
        ok, success, frames := DoClose(timeout);
        ret := CloseReturn(success);
      case _ =>
        ok := SendData(Asked1(op), before);
        ret := SendReturn;
    }

    /** send_text or send_binary: the frame that was asked for, and no other. */
    method SendData(q: Request, ghost before: Summary) returns (ok: bool)
      requires OutputWired() && Even(before) && q.opcode in {TEXT, BINARY} && now.due == Ask(q)
      requires now == before.(due := Ask(q), acc := before.acc.(asked := before.acc.asked + [q]), run := now.run)
      modifies this`log, this`now, factory.fb, factory.random`cachePtr, factory.random.rng
      modifies factory.random.cache, socket`writes, socket`wire
      ensures OutputWired() && Even(now) && |log| == |old(log)| + 1 && WroteData(old(log), log, q.opcode, q.payload)
      ensures log[|old(log)|].ok == ok && (!ok ==> now.faulted)
      ensures now.outb.offered == old(now).outb.offered + [log[|old(log)|].frame]
      ensures now.conn == old(now).conn && now.inb == old(now).inb && SameCloses(old(now), now)
      ensures now.run == old(now).run
    {
      var e;
      ok, e := SendFrame(q.opcode, q.payload);
    }

    // ---------------------------------------------------------- poll

    /** What poll does about a frame; `closed` if it was the server's close. */
    method Dispatch(f: Frame, ghost before: Summary) returns (ok: bool, closed: bool)
      requires Wired() && Even(before) && before.conn.timer.Running?
      requires now == Next(before, Dispatched(f))
      requires Inside(now.run)
      modifies Footprint()
      ensures Resumed(old(now).run, now.run)
      ensures Valid() && old(log) <= log && |host.scripts| <= old(|host.scripts|) && (!ok ==> now.faulted)
      ensures closed <==> IsCloseFrame(f)
      ensures closed && ok ==> CloseCalled(old(log), log, true) && EndsWithHandler(log)
      ensures old(AllOnlySend(host.scripts)) ==> AllOnlySend(host.scripts)
      ensures Acted(old(AllOnlySend(host.scripts)), old(FirstCloses(host.scripts) && open), old(now), now, f)
      decreases |host.scripts|, 5
    {
      ok, closed := true, false;
      if f.opcode == PING {
        ok := AnswerPing(f, before);
      } else if f.opcode == PONG {
        HandlePong();
      } else if f.opcode == CLOSE {
        ok := DispatchClose(f, before);
        closed := true;
      } else {
        ok := CallHandler(OnData(HandlerFor(f.opcode), f));
      }
      Grew();
    }

    method DispatchClose(f: Frame, ghost before: Summary) returns (ok: bool)
      requires Wired() && Even(before) && before.conn.timer.Running?
      requires now == Next(before, Dispatched(f)) && f.opcode == CLOSE
      requires Inside(now.run)
      modifies Footprint()
      ensures Resumed(old(now).run, now.run)
      ensures Valid() && old(log) <= log && |host.scripts| <= old(|host.scripts|) && (!ok ==> now.faulted)
      ensures ok ==> CloseCalled(old(log), log, true) && EndsWithHandler(log)
      ensures ServerCloses(old(now), now) >= 1
      ensures old(AllOnlySend(host.scripts)) ==>
                && AllOnlySend(host.scripts) && now.inb == old(now).inb
                && ServerCloses(old(now), now) == 1 && ClientCloses(old(now), now) == 0
      decreases |host.scripts|, 4
    {
      ok := AnswerClose(f, before);
      if ok {
        ok := CallClose(true);
      }
    }

    method AnswerPing(f: Frame, ghost before: Summary) returns (ok: bool)
      requires Wired() && Even(before) && before.conn.timer.Running?
      requires now == Next(before, Dispatched(f)) && f.opcode == PING
      modifies this`log, this`now, factory.fb, factory.random`cachePtr, factory.random.rng
      modifies factory.random.cache, socket`writes, socket`wire
      ensures now.run == old(now).run
      ensures Valid() && now.inb == old(now).inb && SameCloses(old(now), now) && (!ok ==> now.faulted)
      ensures |log| == |old(log)| + 1 && old(log) <= log
      ensures if |f.payload| > 125 then !ok && log[|old(log)|] == Refused(PONG, f.payload)
              else IsPong(log[|old(log)|], f.payload, ok)
    {
      var e;
      ok, e := SendFrame(PONG, f.payload);
      PongBalances(before, f, e);
    }

    /** Everything up to the call of the close handler: the status first, then the frame. */
    method AnswerClose(f: Frame, ghost before: Summary) returns (ok: bool)
      requires OutputWired() && StateWired() && Even(before)
      requires now == Next(before, Dispatched(f)) && f.opcode == CLOSE
      modifies this`log, this`now, this`open, this`status, factory.fb, factory.random`cachePtr
      modifies factory.random.rng, factory.random.cache, socket`writes, socket`wire
      ensures now.run == old(now).run
      ensures OutputWired() && StateWired() && old(log) <= log && !open && status == ClosedByServer
      ensures |log| == |old(log)| + 2 && log[|old(log)|] == ServerClosed && IsOwnClose(log[|old(log)| + 1], ok)
      ensures now.inb == old(now).inb && now.conn.timer == old(now).conn.timer && (!ok ==> now.faulted)
      ensures ServerCloses(old(now), now) == 1 && ClientCloses(old(now), now) == 0
      ensures if ok then OneCallShort(now) else Even(now)
    {
      LeaveHealthy(ClosedByServer);
      var e;
      ok, e := SendFrame(CLOSE, []);
      CloseBalances(before, f, e);
    }

    /** The two assignments that end a connection. */
    method LeaveHealthy(why: Status)
      requires StateWired()
      requires why == ClosedByServer ==> now.due.Act? && now.due.frame.opcode == CLOSE
      requires why in {ClosedByServer, ClosedByClient} && (why == ClosedByClient ==> now.due.Leaving?)
      modifies this`log, this`now, this`open, this`status
      ensures StateWired() && !open && status == why
      ensures var e := if why == ClosedByServer then ServerClosed else ClientClosed;
              log == old(log) + [e] && now == Next(old(now), e)
      ensures now.conn == old(now).conn.(status := why) && now.outb == old(now).outb
      ensures now.inb == old(now).inb && now.run == old(now).run
    {
      open := false;
      status := why;
      Note(if why == ClosedByServer then ServerClosed else ClientClosed);
    }

    /** One read and one update; `f` is the frame that poll has to act on. */
    method ReadNext() returns (ok: bool, f: Option<Frame>, ghost before: Summary)
      requires Valid()
      modifies this`log, this`now, parser, parser.fb, socket`recvs
      ensures now.run == old(now).run
      ensures Wired() && ReadLogged(old(log), log, ok, f) && Even(before) && before.conn.timer.Running?
      ensures f.None? ==> Valid()
      ensures f.Some? ==> ok && now == Next(before, Dispatched(f.value))
      ensures f == Found(cfg.recvs, old(now).inb) && now.inb == Turned(cfg.recvs, old(now).inb)
      ensures SameCloses(old(now), now) && (!ok ==> now.faulted)
    {
      var newData;
      TurnedAfter(cfg.recvs, now);
      ok, newData := Fetch();
      before := now;
      f := None;
      if ok {
        f := Take(newData);
      }
    }

    /** One turn of poll's loop: acts on a frame and, if there is to be another turn, reads on. */
    method PollTurn(f: Frame, ghost before: Summary, last: bool)
      returns (ok: bool, closed: bool, g: Option<Frame>, ghost after: Summary)
      requires Wired() && Even(before) && before.conn.timer.Running?
      requires now == Next(before, Dispatched(f))
      requires Inside(now.run)
      modifies Footprint()
      ensures Resumed(old(now).run, now.run)
      ensures Wired() && old(log) <= log && |host.scripts| <= old(|host.scripts|) && (!ok ==> now.faulted)
      ensures g.None? ==> Valid()
      ensures g.Some? ==>
                && ok && !closed && !last && now == Next(after, Dispatched(g.value))
                && Even(after) && after.conn.timer.Running?
                && |log| > |old(log)| && log[|log| - 1] == Dispatched(g.value)
      ensures closed <==> IsCloseFrame(f)
      ensures ok && !closed && !last && g.None? ==> log != [] && log[|log| - 1] == Quiet
      ensures ok && closed ==> CloseCalled(old(log), log, true) && EndsWithHandler(log)
      ensures old(AllOnlySend(host.scripts)) ==> AllOnlySend(host.scripts)
      ensures TurnMade(cfg, old(AllOnlySend(host.scripts)), old(FirstCloses(host.scripts) && open),
                       old(now), now, ok, f, g, last)
      decreases |host.scripts|, 6
    {
      ghost var quiet, closing := AllOnlySend(host.scripts), FirstCloses(host.scripts) && open;
      ok, closed := Dispatch(f, before);
      ghost var m := now;
      g, after := None, now;
      if ok && !closed && !last {
        ok, g, after := ReadOn(quiet, closing, old(now), f);
      } else {
        TurnStops(cfg, quiet, closing, old(now), m, ok, f, last);
      }
    }

    method ReadOn(ghost quiet: bool, ghost closing: bool, ghost start: Summary, f: Frame)
      returns (ok: bool, g: Option<Frame>, ghost after: Summary)
      requires Valid() && Acted(quiet, closing, start, now, f) && !IsCloseFrame(f)
      modifies this`log, this`now, parser, parser.fb, socket`recvs
      ensures Wired() && ReadLogged(old(log), log, ok, g) && (!ok ==> now.faulted)
      ensures now.run == old(now).run
      ensures g.None? ==> Valid()
      ensures g.Some? ==> now == Next(after, Dispatched(g.value)) && Even(after) && after.conn.timer.Running?
      ensures TurnMade(cfg, quiet, closing, start, now, ok, f, g, false)
    {
      ghost var m := now;
      ok, g, after := ReadNext();
      Grew();
      TurnGoesOn(cfg, quiet, closing, start, m, now, ok, f);
    }

    /**
      Dispatches frames until there is none, `maxReads` are done, or the server closes:
      `frames` are those that this call itself dispatched, at these places in the history,
      and not those that handlers polled for.
    */
    method PollFrames(maxReads: int) returns (ok: bool, closed: bool, frames: seq<Frame>, ghost at: seq<nat>)
      requires Valid()
      requires Inside(now.run)
      modifies Footprint()
      ensures Resumed(old(now).run, now.run)
      ensures Valid() && old(log) <= log && |host.scripts| <= old(|host.scripts|)
      ensures (!ok ==> now.faulted) && (closed <==> EndsInClose(frames))
      ensures PollLogged(old(log), log, ok, closed, frames, at, None, Max(1, maxReads))
      ensures old(AllOnlySend(host.scripts)) ==> AllOnlySend(host.scripts)
      ensures Polling(cfg, old(AllOnlySend(host.scripts)), old(FirstCloses(host.scripts) && open),
                      old(now), now, ok, frames, None, Max(1, maxReads))
      decreases |host.scripts|, 8
    {
      var f;
      ghost var before;
      ghost var s := Since(log, now, AllOnlySend(host.scripts), FirstCloses(host.scripts) && open, Max(1, maxReads));
      ok, f, before := BeginPoll(s);
      frames, at, closed := [], [], false;
      while f.Some?
        invariant Wired() && old(log) <= log && |host.scripts| <= old(|host.scripts|)
        invariant Resumed(old(now).run, now.run) && (!ok ==> now.faulted)
        invariant f.None? ==> Valid()
        invariant f.Some? ==> ok && !closed && now == Next(before, Dispatched(f.value))
        invariant f.Some? ==> Even(before) && before.conn.timer.Running? && |frames| < s.limit
        invariant Going(s, ok, closed, frames, at, f)
        decreases f.Some?, s.limit - |frames|
      {
        ok, closed, f, before, frames, at := PollStep(s, frames, at, f.value, before, maxReads);
      }
    }

    /** A poll that began at s is under way. */
    ghost predicate Going(s: Since, ok: bool, closed: bool, frames: seq<Frame>, at: seq<nat>, f: Option<Frame>)
      reads this, host
    {
      && Polling(cfg, s.quiet, s.closing, s.now, now, ok, frames, f, s.limit)
      && PollLogged(s.log, log, ok, closed, frames, at, f, s.limit)
      && (s.quiet ==> AllOnlySend(host.scripts))
      && (frames == [] && s.closing ==> FirstCloses(host.scripts) && open)
      && (f.None? ==> (closed <==> EndsInClose(frames))) && (f.Some? ==> log != [])
    }

    method BeginPoll(ghost s: Since) returns (ok: bool, f: Option<Frame>, ghost before: Summary)
      requires Valid() && s.log == log && s.now == now && s.limit > 0
      requires s.quiet == AllOnlySend(host.scripts) && s.closing == (FirstCloses(host.scripts) && open)
      modifies this`log, this`now, parser, parser.fb, socket`recvs
      ensures now.run == old(now).run
      ensures Wired() && old(log) <= log && (!ok ==> now.faulted)
      ensures f.None? ==> Valid()
      ensures f.Some? ==>
                ok && now == Next(before, Dispatched(f.value)) && Even(before) && before.conn.timer.Running?
      ensures Going(s, ok, false, [], [], f)
    {
      ok, f, before := ReadNext();
      Grew();
      PollingStarts(cfg, s.quiet, s.closing, s.now, now, ok, s.limit);
      PollLoggedStarts(s.log, log, ok, f, s.limit);
    }

    method PollStep(ghost s: Since, fs: seq<Frame>, ghost places: seq<nat>, f: Frame,
                    ghost before: Summary, maxReads: int)
      returns (ok: bool, closed: bool, g: Option<Frame>, ghost after: Summary, frames: seq<Frame>, ghost at: seq<nat>)
      requires Wired() && Even(before) && before.conn.timer.Running? && now == Next(before, Dispatched(f))
      requires s.limit == Max(1, maxReads) && |fs| < s.limit && Going(s, true, false, fs, places, Some(f))
      requires Inside(now.run)
      modifies Footprint()
      ensures Resumed(old(now).run, now.run)
      ensures Wired() && old(log) <= log && |host.scripts| <= old(|host.scripts|) && (!ok ==> now.faulted)
      ensures g.None? ==> Valid()
      ensures g.Some? ==>
                && ok && !closed && now == Next(after, Dispatched(g.value))
                && Even(after) && after.conn.timer.Running? && |frames| < s.limit
      ensures frames == fs + [f] && Going(s, ok, closed, frames, at, g)
      decreases |host.scripts|, 7
    {
      ghost var l, m, q, c := log, now, AllOnlySend(host.scripts), FirstCloses(host.scripts) && open;
      frames, at := fs + [f], places + [|log| - 1];
      ok, closed, g, after := PollTurn(f, before, |frames| >= maxReads);
      PollingStep(cfg, s.quiet, s.closing, q, c, s.now, m, now, ok, fs, f, g, s.limit);
      PollLoggedStep(s.log, l, log, ok, closed, fs, places, f, g, s.limit);
    }

    /** `poll`: frames first, then, unless the server closed, the ping timer. */
    method DoPoll(maxReads: int) returns (ok: bool, closed: bool, frames: seq<Frame>, ghost at: seq<nat>)
      requires Valid()
      requires Inside(now.run)
      modifies Footprint()
      ensures Resumed(old(now).run, now.run)
      ensures Valid() && BeganWithRead(old(log), log) && |host.scripts| <= old(|host.scripts|)
      ensures (!ok ==> now.faulted) && (closed <==> EndsInClose(frames))
      ensures PollDone(old(log), log, ok, closed, frames, at, Max(1, maxReads))
      ensures ok && closed ==> CloseCalled(old(log), log, true)
      ensures old(AllOnlySend(host.scripts)) ==> AllOnlySend(host.scripts)
      ensures Polling(cfg, old(AllOnlySend(host.scripts)), old(FirstCloses(host.scripts) && open),
                      old(now), now, ok, frames, None, Max(1, maxReads))
      decreases |host.scripts|, 9
    {
      ghost var quiet, closing := AllOnlySend(host.scripts), FirstCloses(host.scripts) && open;
      ok, closed, frames, at := PollFrames(maxReads);
      ghost var l, m := log, now;
      if ok && !closed {
        label Before:
        ok := UpdatePing();
        Grew@Before();
        PollingEnds(cfg, quiet, closing, old(now), m, now, ok, frames, Max(1, maxReads));
        PollTicked(old(log), l, log, ok, frames, at, Max(1, maxReads));
      } else {
        PollStopped(old(log), log, ok, closed, frames, at, Max(1, maxReads));
      }
    }

    // ---------------------------------------------------------- close

    /** Clears the parser and sends a close frame of our own. */
    method BeginClose() returns (ok: bool)
      requires Valid()
      modifies this`log, this`now, this`open, this`status, parser, parser.fb
      modifies factory.fb, factory.random`cachePtr, factory.random.rng, factory.random.cache
      modifies socket`writes, socket`wire
      ensures now.run == old(now).run
      ensures Wired() && old(log) <= log && now.conn.timer.Running? && (!ok ==> now.faulted)
      ensures if ok then OneCallShort(now) && Over(now) else Even(now)
      ensures ServerCloses(old(now), now) == 0 && ClientCloses(old(now), now) == (if ok then 1 else 0)
      ensures |log| >= |old(log)| + 2 && log[|old(log)|] == Cleared
      ensures IsOwnClose(log[|old(log)| + 1], ok)
      ensures ok ==> status == ClosedByClient && !open
      ensures ok ==> |log| == |old(log)| + 3 && log[|old(log)| + 2] == ClientClosed
    {
      ClearParser();
      ok := SendOwnClose();
    }

    method SendOwnClose() returns (ok: bool)
      requires OutputWired() && StateWired() && Even(now)
      modifies this`log, this`now, this`open, this`status
      modifies factory.fb, factory.random`cachePtr, factory.random.rng, factory.random.cache
      modifies socket`writes, socket`wire
      ensures now.run == old(now).run
      ensures OutputWired() && StateWired() && old(log) <= log
      ensures now.inb == old(now).inb && now.conn.timer == old(now).conn.timer && (!ok ==> now.faulted)
      ensures if ok then OneCallShort(now) && Over(now) else Even(now)
      ensures ServerCloses(old(now), now) == 0 && ClientCloses(old(now), now) == (if ok then 1 else 0)
      ensures |log| >= |old(log)| + 1 && IsOwnClose(log[|old(log)|], ok)
      ensures ok ==> status == ClosedByClient && !open
      ensures ok ==> |log| == |old(log)| + 2 && log[|old(log)| + 1] == ClientClosed
    {
      ghost var m := now;
      var e;
      ok, e := SendFrame(CLOSE, []);
      if ok {
        LeaveHealthy(ClosedByClient);
        OwnCloseBalances(m, e);
      }
    }

    method ClearParser()
      requires InputWired() && now.due.Clear?
      modifies this`log, this`now, parser, parser.fb
      ensures InputWired() && log == old(log) + [Cleared] && now == Next(old(now), Cleared)
    {
      assert Asked(AboutInput, 0);
      parser.Clear();
      Note(Cleared);
    }

    /**
      Reads and throws frames away until the server's close comes or time is up: `success`
      says which, and without it there were ten reads for each second.
    */
    method AwaitClose(timeout: int) returns (ok: bool, success: bool)
      requires Wired() && OneCallShort(now) && now.conn.timer.Running?
      modifies this`log, this`now, parser, parser.fb, socket`recvs
      ensures now.run == old(now).run
      ensures Wired() && old(log) <= log && now.conn.timer.Running?
      ensures now.conn == old(now).conn && now.acc == old(now).acc
      ensures if ok then OneCallShort(now) else Even(now) && now.faulted
      ensures success ==> ok && |log| > |old(log)| && IsClose(log[|log| - 1])
      ensures ok && !success ==> NoCloseSince(old(log), log)
      ensures Reads(log) <= Reads(old(log)) + Max(0, timeout * 10)
      ensures ok && !success ==> Reads(log) == Reads(old(log)) + Max(0, timeout * 10)
    {
      ok, success := true, false;
      var i := 0;
      while i < timeout * 10
        invariant Wired() && OneCallShort(now) && old(log) <= log && now.conn.timer.Running?
        invariant now.conn == old(now).conn && now.acc == old(now).acc && now.run == old(now).run
        invariant !success && 0 <= i <= Max(0, timeout * 10) && Reads(log) == Reads(old(log)) + i
        invariant NoCloseSince(old(log), log)
      {
        ghost var l := log;
        ok, success := AwaitTurn();
        if !ok {
          return;
        }
        if success {
          break;
        }
        NoCloseYet(old(log), l, log);
        i := i + 1;
      }
    }

    method AwaitTurn() returns (ok: bool, success: bool)
      requires Wired() && OneCallShort(now) && now.conn.timer.Running?
      modifies this`log, this`now, parser, parser.fb, socket`recvs
      ensures Wired() && old(log) <= log && now.run == old(now).run
      ensures now.conn == old(now).conn && now.acc == old(now).acc
      ensures if ok then OneCallShort(now) else Even(now) && now.faulted
      ensures Reads(log) == Reads(old(log)) + if ok then 1 else 0
      ensures success ==> ok && |log| > |old(log)| && IsClose(log[|log| - 1])
      ensures !success ==> NoCloseSince(old(log), log)
    {
      var f;
      ghost var l, e := log, Quiet;
      ok, f, e := ReadView();
      success := ok && f.Some? && f.value.opcode == CLOSE;
      CloseViewed(l, log, e, f);
    }

    /** One read of a copy and one update, outside poll. */
    method ReadView() returns (ok: bool, f: Option<Frame>, ghost e: Event)
      requires InputWired() && OneCallShort(now)
      modifies this`log, this`now, parser, parser.fb, socket`recvs
      ensures now.run == old(now).run
      ensures InputWired() && old(log) <= log && Reads(log) == Reads(old(log)) + if ok then 1 else 0
      ensures now.conn == old(now).conn && now.outb == old(now).outb && now.acc == old(now).acc
      ensures if ok then OneCallShort(now) else Even(now) && now.faulted
      ensures e == ReadEvent(cfg.recvs, old(now).inb.calls) && (e.Received? || e.RecvFailed?)
      ensures (ok <==> e.Received?) && (f.Some? ==> ok) && Viewed(old(log), log, e, f)
    {
      e := ReadEvent(cfg.recvs, now.inb.calls);
      var bytes;
      ok, bytes := ReadCopy();
      f := None;
      if ok {
        f := TakeView(bytes);
      } else {
        TakeNothing();
      }
      ReadsViewed(old(log), log, e, f);
    }

    /** A receive call has been made and not been noted yet. */
    ghost predicate Between()
      reads this`log, this`now, parser, parser.fb, socket`recvs
    {
      && History() && parser.Valid() && parser.Settled()
      && now.inb.received == parser.Accepted() && now.inb.emitted == parser.emitted
      && socket.recvs == Drop(cfg.recvs, now.inb.calls + 1)
    }

    method ReadCopy() returns (ok: bool, bytes: seq<byte>)
      requires InputWired()
      modifies socket`recvs
      ensures Between()
      ensures ReadEvent(cfg.recvs, now.inb.calls) == if ok then Received(bytes) else RecvFailed
    {
      assert Asked(AboutInput, 0);
      DropRest(cfg.recvs, now.inb.calls);
      ok, bytes := socket.Read(READ_LIMIT);
    }

    method TakeNothing()
      requires Between() && now.due.Clear? && RecvFailed == ReadEvent(cfg.recvs, now.inb.calls)
      modifies this`log, this`now
      ensures InputWired() && log == old(log) + [RecvFailed] && now == Next(old(now), RecvFailed)
    {
      Note(RecvFailed);
    }

    method TakeView(bytes: seq<byte>) returns (f: Option<Frame>)
      requires Between() && now.due.Clear? && Received(bytes) == ReadEvent(cfg.recvs, now.inb.calls)
      modifies this`log, this`now, parser, parser.fb
      ensures InputWired() && Viewed(old(log), log, Received(bytes), f)
      ensures now == var m := Next(old(now), Received(bytes));
                     if f.Some? then Next(m, Discarded(f.value)) else m
    {
      var r := parser.UpdateView(bytes);
      parser.EmittedThenUnread();
      Note(Received(bytes));
      f := None;
      if r.Some? {
        f := Some(Observe(r.value, parser.fb.Contents()));
        Note(Discarded(f.value));
      }
    }

    /**
      `close` polls first and does not look again whether the connection is still open
      before it closes from this side. `frames` are those that its poll acted on; CloseMade
      says how often the close handler is called.
    */
    method DoClose(timeout: int) returns (ok: bool, success: bool, frames: seq<Frame>)
      requires Valid()
      requires Inside(now.run)
      modifies Footprint()
      ensures Resumed(old(now).run, now.run)
      ensures Valid() && old(log) <= log && |host.scripts| <= old(|host.scripts|) && (!ok ==> now.faulted)
      ensures !old(open) ==> ok && success && frames == [] && log == old(log) && now == old(now)
      ensures old(open) ==> BeganWithRead(old(log), log)
      ensures ok ==> !open
      ensures ok && old(open) ==> CloseCalled(old(log), log, success) && ClientCloses(old(now), now) >= 1
      ensures ok && EndsInClose(frames) ==> CloseCalledTwice(old(log), log, success)
      ensures old(open) ==>
                CloseMade(cfg, old(AllOnlySend(host.scripts)), old(FirstCloses(host.scripts)),
                          old(now), now, ok, frames, 4)
      decreases |host.scripts|, 10
    {
      if !open {
        return true, true, [];
      }
      ghost var quiet, closing := AllOnlySend(host.scripts), FirstCloses(host.scripts);
      var closed;
      ghost var at;
      ok, closed, frames, at := DoPoll(4);
      success := false;
      Grew();
      if ok {
        ghost var l, m := log, now;
        label Before:
        ok, success := CloseHere(timeout);
        Grew@Before();
        CloseAddsUp(cfg, quiet, closing, old(now), m, now, ok, frames, 4);
        if ok {
          CallsInOrder(old(log), l, log, success);
        }
      } else {
        CloseBroken(cfg, quiet, closing, old(now), now, frames, 4);
      }
    }

    /** A program that closes the client and does nothing else, like its destructor. */
    method CloseProgram(timeout: int) returns (ok: bool, success: bool, frames: seq<Frame>)
      requires Valid() && Admissible(cfg, now, Launched([Call(Close(timeout), false)]))
      modifies Footprint()
      ensures Valid() && old(log) <= log && (!ok ==> now.faulted) && (ok ==> !open)
      ensures Resumed(old(now).run.(programs := old(now).run.programs + 1), now.run)
      ensures old(open) ==>
                CloseMade(cfg, old(AllOnlySend(host.scripts)), old(FirstCloses(host.scripts)),
                          old(now), now, ok, frames, 4)
    {
      ghost var quiet, closing := AllOnlySend(host.scripts), FirstCloses(host.scripts);
      BeginProgram(Close(timeout));
      ghost var m := now;
      ok, success, frames := DoClose(timeout);
      ghost var n := now;
      EndProgram(ok);
      if old(open) {
        CloseMadeAround(cfg, quiet, closing, old(now), m, n, now, ok, frames, 4);
      }
    }

    method EndProgram(ok: bool)
      requires StateWired() && Even(now) && InCall(now.run) && (!ok ==> now.faulted)
      requires |now.run.todo.top.calls| == 1
      modifies this`log, this`now
      ensures StateWired() && Even(now) && old(log) <= log && SameForClose(old(now), now)
      ensures now.run == old(now).run.(todo := old(now).run.todo.below)
      ensures now.conn == old(now).conn && now.inb == old(now).inb && now.outb == old(now).outb
    {
      NoteReturn(ok);
      NoteEnd();
    }

    method BeginProgram(op: Op)
      requires StateWired() && Even(now) && !IsSend(op) && Admissible(cfg, now, Launched([Call(op, false)]))
      modifies this`log, this`now
      ensures StateWired() && Even(now) && old(log) <= log && Inside(now.run) && SameForClose(old(now), now)
      ensures now.run == old(now).run.(todo := On(Script([Call(op, false)], true), Empty),
                                       programs := old(now).run.programs + 1)
      ensures now.conn == old(now).conn && now.inb == old(now).inb && now.outb == old(now).outb
    {
      Note(Launched([Call(op, false)]));
      NoteCalled(op);
    }

    /** What close does after its poll, open or not. */
    method CloseHere(timeout: int) returns (ok: bool, success: bool)
      requires Valid()
      requires Inside(now.run)
      modifies Footprint()
      ensures Resumed(old(now).run, now.run)
      ensures Valid() && old(log) <= log && |host.scripts| <= old(|host.scripts|) && (!ok ==> now.faulted)
      ensures ok ==> !open && CloseCalled(old(log), log, success) && ClientCloses(old(now), now) >= 1
      ensures ok && old(AllOnlySend(host.scripts)) ==>
                ServerCloses(old(now), now) == 0 && ClientCloses(old(now), now) == 1
      decreases |host.scripts|, 5
    {
      success := false;
      ok := BeginClose();
      if ok {
        label Begun:
        ok, success := FinishClose(timeout);
        Grew@Begun();
      }
    }

    /** Waits for the server's close and calls the handler; the connection is over by now. */
    method FinishClose(timeout: int) returns (ok: bool, success: bool)
      requires Wired() && OneCallShort(now) && Over(now) && now.conn.timer.Running?
      requires Inside(now.run)
      modifies Footprint()
      ensures Resumed(old(now).run, now.run)
      ensures Valid() && old(log) <= log && |host.scripts| <= old(|host.scripts|)
      ensures !open && (!ok ==> now.faulted)
      ensures ok ==> CloseCalled(old(log), log, success)
      ensures old(AllOnlySend(host.scripts)) ==>
                ServerCloses(old(now), now) == 0 && ClientCloses(old(now), now) == 0
      decreases |host.scripts|, 4
    {
      ok, success := AwaitClose(timeout);
      if ok {
        ok := CallClose(success);
      }
    }

    /** Calls the close handler; whatever it does, a connection that is over stays over. */
    method CallClose(success: bool) returns (ok: bool)
      requires Wired() && OneCallShort(now) && now.conn.timer.Running? && Inside(now.run)
      modifies Footprint()
      ensures Valid() && old(log) <= log && |host.scripts| <= old(|host.scripts|) && (!ok ==> now.faulted)
      ensures Resumed(old(now).run, now.run) && EndsWithHandler(log)
      ensures CloseCalled(old(log), log, success) && Later(old(now), now) && (Over(old(now)) ==> !open)
      ensures old(AllOnlySend(host.scripts)) ==> AllOnlySend(host.scripts) && Undisturbed()
      decreases |host.scripts|, 3
    {
      ghost var l, m := log, now;
      assert LoggedAs(l, m) by { assert Asked(AboutHistory, 0); }
      ok := CallHandler(OnClose(success));
      assert log[|l|] == OnClose(success);
      Grew();
      if Over(m) {
        StillOver(l, m);
      }
    }

    ghost predicate LoggedAs(l: seq<Event>, m: Summary) {
      Legal(cfg, l) && m == SummaryOf(l)
    }

    /** Whatever happens after the connection is over, handlers included, it stays over. */
    lemma StillOver(l: seq<Event>, m: Summary)
      requires History() && l <= log && LoggedAs(l, m) && Over(m)
      ensures Over(now)
    {
      assert Asked(AboutHistory, 0);
      assert log[..|l|] == l && log[..|log|] == log;
      NeverHealthyAgain(cfg, log, |l|, |log|);
    }
  }

  /** The frames asked for since then are these greetings, in order. */
  ghost predicate Greeted(before: seq<Frame>, after: seq<Frame>, sends: seq<Call>)
    requires OnlySends(sends)
  {
    && |after| == |before| + |sends| && before <= after
    && forall i :: 0 <= i < |sends| ==>
         Request(after[|before| + i].opcode, after[|before| + i].payload) == Asked1(sends[i].op)
  }

  /** The close handler was called with this result. */
  predicate CloseCalled(before: seq<Event>, after: seq<Event>, success: bool) {
    exists i :: |before| <= i < |after| && after[i] == OnClose(success)
  }

  /** The close handler was called, first with `true` and later with this result. */
  predicate CloseCalledTwice(before: seq<Event>, after: seq<Event>, success: bool) {
    exists i, j :: |before| <= i < j < |after| && after[i] == OnClose(true) && after[j] == OnClose(success)
  }

  lemma CallsInOrder(a: seq<Event>, b: seq<Event>, c: seq<Event>, success: bool)
    requires a <= b <= c && CloseCalled(b, c, success)
    ensures CloseCalled(a, c, success)
    ensures CloseCalled(a, b, true) ==> CloseCalledTwice(a, c, success)
  {
    var j :| |b| <= j < |c| && c[j] == OnClose(success);
    if CloseCalled(a, b, true) {
      var i :| |a| <= i < |b| && b[i] == OnClose(true);
      assert c[i] == b[i];
    }
  }

  /** The next thing that happened was a write of this frame. */
  predicate WroteData(before: seq<Event>, after: seq<Event>, opcode: byte, payload: seq<byte>) {
    && |after| > |before| && before <= after && after[|before|].Wrote?
    && after[|before|].frame.opcode == opcode && after[|before|].frame.payload == payload
  }

  /** An empty close frame, written with this outcome. */
  predicate IsOwnClose(e: Event, ok: bool) {
    e.Wrote? && e.ok == ok && e.frame.opcode == 0x8 && e.frame.payload == []
  }

  predicate IsOwnPing(e: Event, ok: bool) {
    e.Wrote? && e.ok == ok && e.frame.opcode == 0x9 && e.frame.payload == []
  }

  predicate IsPong(e: Event, payload: seq<byte>, ok: bool) {
    e.Wrote? && e.ok == ok && e.frame.opcode == 0xA && e.frame.payload == payload
  }

  /** The constructor ends by starting the timer and sending a ping. */
  predicate EndsWithFirstPing(log: seq<Event>, at: int) {
    |log| >= 2 && log[|log| - 2] == Started(at) && IsOwnPing(log[|log| - 1], true)
  }

  /** What update_ping adds to a history. */
  predicate Ticked(before: seq<Event>, after: seq<Event>, ok: bool) {
    && |after| > |before| && before <= after && after[|before|].Tick?
    && if after[|before|].action == SendPing then
         |after| == |before| + 2 && IsOwnPing(after[|before| + 1], ok)
       else
         |after| == |before| + 1 && ok
  }

  predicate EndsWithTick(log: seq<Event>) {
    || (log != [] && log[|log| - 1].Tick?)
    || (|log| >= 2 && log[|log| - 2].Tick? && IsOwnPing(log[|log| - 1], true))
  }

  /** These frames were dispatched one after the other, at these places from here on. */
  ghost predicate DispatchedAt(frames: seq<Frame>, at: seq<nat>, start: nat, log: seq<Event>) {
    && |at| == |frames|
    && (forall i :: 0 <= i < |at| ==> start <= at[i] < |log| && log[at[i]] == Dispatched(frames[i]))
    && (forall i :: 0 < i < |at| ==> at[i - 1] < at[i])
  }

  lemma OneMoreAt(frames: seq<Frame>, at: seq<nat>, start: nat, log: seq<Event>, f: Frame)
    requires log != [] && DispatchedAt(frames, at, start, log[..|log| - 1])
    requires start < |log| && log[|log| - 1] == Dispatched(f)
    ensures DispatchedAt(frames + [f], at + [|log| - 1], start, log)
  {}

  lemma StillAt(frames: seq<Frame>, at: seq<nat>, start: nat, before: seq<Event>, after: seq<Event>)
    requires DispatchedAt(frames, at, start, before) && before <= after
    ensures DispatchedAt(frames, at, start, after)
  {}

  /**
    What a poll has added to a history: it read, it dispatched these frames and is about to
    act on f. When it stops short of its limit it has found nothing, or the server closed
    and the close handler was called last.
  */
  ghost predicate PollLogged(start: seq<Event>, log: seq<Event>, ok: bool, closed: bool,
                             frames: seq<Frame>, at: seq<nat>, f: Option<Frame>, limit: nat)
  {
    forall k :: Asked(AboutPlaces, k) ==>
      && BeganWithRead(start, log) && |frames| <= limit
      && DispatchedAt(frames, at, |start|, if f.Some? then log[..|log| - 1] else log)
      && (f.Some? ==> |log| > |start| + 1 && log[|log| - 1] == Dispatched(f.value))
      && (ok && !closed && f.None? && |frames| < limit ==> log[|log| - 1] == Quiet)
      && (ok && closed ==> CloseCalled(start, log, true) && EndsWithHandler(log))
  }

  lemma PollLoggedStarts(start: seq<Event>, log: seq<Event>, ok: bool, f: Option<Frame>, limit: nat)
    requires ReadLogged(start, log, ok, f)
    ensures PollLogged(start, log, ok, false, [], [], f, limit)
  {}

  lemma PollLoggedStep(start: seq<Event>, l: seq<Event>, log: seq<Event>, ok: bool, closed: bool,
                       frames: seq<Frame>, at: seq<nat>, f: Frame, g: Option<Frame>, limit: nat)
    requires PollLogged(start, l, true, false, frames, at, Some(f), limit) && |frames| < limit && l != []
    requires l <= log && (g.Some? ==> |log| > |l| && log[|log| - 1] == Dispatched(g.value))
    requires ok && !closed && |frames| + 1 < limit && g.None? ==> log != [] && log[|log| - 1] == Quiet
    requires ok && closed ==> CloseCalled(l, log, true) && EndsWithHandler(log)
    ensures PollLogged(start, log, ok, closed, frames + [f], at + [|l| - 1], g, limit)
  {
    assert Asked(AboutPlaces, 0);
    OneMoreAt(frames, at, |start|, l, f);
    StillAt(frames + [f], at + [|l| - 1], |start|, l, if g.Some? then log[..|log| - 1] else log);
    if ok && closed {
      CallsInOrder(start, l, log, true);
    }
  }

  /**
    What a whole poll has added to a history: on normal return it ends with the tick of the
    ping timer, unless the server closed; then it ends with the close handler.
  */
  ghost predicate PollDone(start: seq<Event>, log: seq<Event>, ok: bool, closed: bool,
                           frames: seq<Frame>, at: seq<nat>, limit: nat)
  {
    forall k :: Asked(AboutPlaces, k) ==>
      && |frames| <= limit && DispatchedAt(frames, at, |start|, log)
      && (ok ==> (closed <==> EndsWithHandler(log)) && (!closed <==> EndsWithTick(log)))
      && (ok && !closed && |frames| < limit ==> exists i :: |start| <= i < |log| && log[i] == Quiet)
  }

  lemma PollTicked(start: seq<Event>, l: seq<Event>, log: seq<Event>, ok: bool,
                   frames: seq<Frame>, at: seq<nat>, limit: nat)
    requires PollLogged(start, l, true, false, frames, at, None, limit) && Ticked(l, log, ok)
    ensures BeganWithRead(start, log) && PollDone(start, log, ok, false, frames, at, limit)
  {
    assert Asked(AboutPlaces, 0);
    StillAt(frames, at, |start|, l, log);
    assert log[|l| - 1] == l[|l| - 1];
  }

  lemma PollStopped(start: seq<Event>, log: seq<Event>, ok: bool, closed: bool,
                    frames: seq<Frame>, at: seq<nat>, limit: nat)
    requires PollLogged(start, log, ok, closed, frames, at, None, limit) && (ok ==> closed)
    ensures BeganWithRead(start, log) && PollDone(start, log, ok, closed, frames, at, limit)
    ensures ok ==> CloseCalled(start, log, true)
  {
    assert Asked(AboutPlaces, 0);
  }

  predicate SameCloses(m: Summary, n: Summary) {
    CloseCalls(m, n) == 0 && ServerCloses(m, n) == 0 && ClientCloses(m, n) == 0
  }

  /** What a call of each kind adds to a history and returns. */
  predicate Performed(op: Op, wasOpen: bool, before: seq<Event>, after: seq<Event>,
                      ok: bool, ret: Outcome, status: Status, open: bool)
  {
    match op
    case SendText(payload) =>
      ret == SendReturn && |after| == |before| + 1 && WroteData(before, after, 0x1, payload)
    case SendBinary(payload) =>
      ret == SendReturn && |after| == |before| + 1 && WroteData(before, after, 0x2, payload)
    case Poll(_) =>
      ret == PollReturn(status) && BeganWithRead(before, after)
    case Close(_) =>
      && ret.CloseReturn?
      && (!wasOpen ==> ok && ret.success && after == before)
      && (wasOpen ==> BeganWithRead(before, after))
      && (wasOpen && ok ==> !open && CloseCalled(before, after, ret.success))
  }

  /** A call, from its beginning to what its caller sees when it returns. */
  predicate Invoked(op: Op, wasOpen: bool, before: seq<Event>, after: seq<Event>,
                    ok: bool, ret: Outcome, status: Status, open: bool)
  {
    && |after| >= |before| + 3 && before + [Called(op)] <= after
    && after[|after| - 2..] == [Returned(ok), Boundary(status, open)]
    && Performed(op, wasOpen, before + [Called(op)], after[..|after| - 2], ok, ret, status, open)
  }

  lemma InvokedBy(op: Op, wasOpen: bool, before: seq<Event>, l: seq<Event>, k: seq<Event>, after: seq<Event>,
                  ok: bool, ret: Outcome, status: Status, open: bool)
    requires l == before + [Called(op)] && l <= k && after == k + [Returned(ok), Boundary(status, open)]
    requires Performed(op, wasOpen, l, k, ok, ret, status, open)
    ensures Invoked(op, wasOpen, before, after, ok, ret, status, open)
  {
    assert after[..|after| - 2] == k;
  }

  /** One read while close waits, and the frame that came out of it. */
  predicate Viewed(before: seq<Event>, after: seq<Event>, e: Event, f: Option<Frame>) {
    after == if f.Some? then before + [e] + [Discarded(f.value)] else before + [e]
  }

  lemma ReadsViewed(before: seq<Event>, after: seq<Event>, e: Event, f: Option<Frame>)
    requires Viewed(before, after, e, f)
    ensures Reads(after) == Reads(before) + if e.Received? then 1 else 0
  {
    ReadsAppend(before, e);
    if f.Some? {
      ReadsAppend(before + [e], Discarded(f.value));
    }
  }

  lemma CloseViewed(before: seq<Event>, after: seq<Event>, e: Event, f: Option<Frame>)
    requires Viewed(before, after, e, f) && (e.Received? || e.RecvFailed?)
    ensures |after| > |before| && before <= after
    ensures f.Some? && f.value.opcode == 0x8 ==> IsClose(after[|after| - 1])
    ensures !(f.Some? && f.value.opcode == 0x8) ==> NoCloseSince(before, after)
  {}

  /** No close came in while close was waiting for it. */
  ghost predicate NoCloseSince(before: seq<Event>, after: seq<Event>) {
    forall i :: Asked(AboutPlaces, i) && |before| <= i < |after| ==> !IsClose(after[i])
  }

  lemma NoCloseYet(a: seq<Event>, b: seq<Event>, c: seq<Event>)
    requires a <= b <= c && NoCloseSince(a, b) && NoCloseSince(b, c)
    ensures NoCloseSince(a, c)
  {
    forall i | |a| <= i < |c|
      ensures !IsClose(c[i])
    {
      assert Asked(AboutPlaces, i);
      if i < |b| {
        assert c[i] == b[i];
      }
    }
  }

  /** One read and one update inside poll. */
  predicate ReadLogged(before: seq<Event>, after: seq<Event>, ok: bool, f: Option<Frame>) {
    && BeganWithRead(before, after) && |after| == |before| + (if ok then 2 else 1)
    && (ok ==> after[|after| - 1] == if f.Some? then Dispatched(f.value) else Quiet)
    && (f.Some? ==> ok)
  }

  /** A handler or a program has just come to its end. */
  predicate EndsWithHandler(log: seq<Event>) {
    log != [] && log[|log| - 1] == Ended
  }

  /** A call that began with a read. */
  predicate BeganWithRead(before: seq<Event>, after: seq<Event>) {
    && |after| > |before| && before <= after
    && (after[|before|].Received? || after[|before|].RecvFailed?)
  }

  /** The server's answer to a close, while close waits for it. */
  predicate IsClose(e: Event) {
    e.Discarded? && e.frame.opcode == 0x8
  }

  /** The accounts, but for one ping. */
  predicate OnePingShort(m: Summary) {
    && m.due.Pinging?
    && m.acc.handled == m.acc.data
    && (!m.faulted ==> Balanced(m.conn.status, m.acc.(pingsSent := m.acc.pingsSent + 1)))
  }

  /** The accounts, but for one call of the close handler. */
  predicate OneCallShort(m: Summary) {
    && m.due.Clear?
    && m.acc.handled == m.acc.data
    && (!m.faulted ==> Balanced(m.conn.status, m.acc.(closeCalls := m.acc.closeCalls + 1)))
  }

  lemma NothingYet(m: Summary)
    requires Untouched(m)
    ensures Even(m) && m.conn == START.conn && m.run == Run(Empty, 0, 0)
    ensures m.inb == START.inb && m.outb == START.outb && SameCloses(START, m)
  {
    assert Asked(AboutCounts, 0);
  }

  lemma OpeningBalances(m: Summary, e: Event)
    requires Even(m) && e == Opened
    ensures var n := Next(m, e);
            Fair(n) && n == m.(conn := m.conn.(status := Healthy), due := Show(true))
  {}

  lemma PongBalances(m: Summary, f: Frame, e: Event)
    requires Even(m) && f.opcode == PING && (e.Refused? || e.Wrote?)
    requires e.Wrote? ==> e.frame.opcode == PONG && e.frame.payload == f.payload
    requires e.Refused? ==> e.opcode == PONG
    ensures Even(Next(Next(m, Dispatched(f)), e))
  {}

  lemma CloseBalances(m: Summary, f: Frame, e: Event)
    requires Even(m) && f.opcode == CLOSE && (e.Refused? || e.Wrote?)
    requires e.Wrote? ==> e.frame.opcode == CLOSE
    requires e.Refused? ==> e.opcode == CLOSE
    ensures OneCallShort(Next(Next(Next(m, Dispatched(f)), ServerClosed), e))
    ensures Faults(e) ==> Even(Next(Next(Next(m, Dispatched(f)), ServerClosed), e))
  {}

  lemma OwnCloseBalances(m: Summary, e: Event)
    requires Even(m) && e.Wrote? && e.ok && e.frame.opcode == CLOSE
    ensures OneCallShort(Next(Next(m, e), ClientClosed))
  {}

  lemma PingBalances(m: Summary, looked: int, at: int, e: Event)
    requires Even(m) && (e.Refused? || e.Wrote?)
    requires e.Wrote? ==> e.frame.opcode == PING
    requires e.Refused? ==> e.opcode == PING
    ensures Even(Next(Next(m, Tick(looked, SendPing, at)), e))
  {}
}
