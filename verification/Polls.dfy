/**
  What a poll is going to find: its frames as a function of the bytes that are unread and
  of what the receive calls will return, provided that handlers leave the parser alone.
*/
module Polls {
  import opened Bytes
  import opened Frames
  import opened Streams
  import opened FrameParsers
  import opened Sockets
  import opened Trace
  import opened Theorems

  /** One more receive call. */
  function Fetched(recvs: seq<Recv>, i: Inbound): Inbound {
    i.(received := i.received + BytesOf(ReadResult(recvs, i.calls)), calls := i.calls + 1)
  }

  /** The first frame that has not been handed out yet. */
  function NextFrame(i: Inbound): Option<Frame> {
    if |i.emitted| < |DecodeAll(i.received)| then Some(DecodeAll(i.received)[|i.emitted|]) else None
  }

  /** That frame is handed out. */
  function Handed(i: Inbound, f: Frame): Inbound {
    i.(emitted := i.emitted + [f])
  }

  predicate IsCloseFrame(f: Frame) {
    f.opcode == CLOSE
  }

  /** The frame that the next turn of a poll finds; a failing call throws before it looks. */
  function Found(recvs: seq<Recv>, i: Inbound): Option<Frame> {
    if ReadResult(recvs, i.calls) == Failed then None else NextFrame(Fetched(recvs, i))
  }

  /** The frames of a poll of at most n frames: up to a close, or until there is none. */
  function Polled(recvs: seq<Recv>, i: Inbound, n: nat): (fs: seq<Frame>)
    ensures |fs| <= n
    ensures forall k :: 0 <= k < |fs| - 1 ==> !IsCloseFrame(fs[k])
    decreases n
  {
    if n == 0 then []
    else
      var f := Found(recvs, i);
      if f.None? then []
      else if IsCloseFrame(f.value) then [f.value]
      else [f.value] + Polled(recvs, Handed(Fetched(recvs, i), f.value), n - 1)
  }

  /** A list of frames that ends with a close. */
  predicate EndsInClose(fs: seq<Frame>) {
    fs != [] && IsCloseFrame(fs[|fs| - 1])
  }

  /** The same, once a turn has found f and left i behind. */
  function PolledFrom(recvs: seq<Recv>, f: Option<Frame>, i: Inbound, n: nat): seq<Frame> {
    if f.None? || n == 0 then []
    else if IsCloseFrame(f.value) then [f.value]
    else [f.value] + Polled(recvs, i, n - 1)
  }

  /** What a turn leaves behind. */
  function Turned(recvs: seq<Recv>, i: Inbound): Inbound {
    var f := Found(recvs, i);
    if f.None? then Fetched(recvs, i) else Handed(Fetched(recvs, i), f.value)
  }

  /** The history of one turn amounts to this. */
  lemma TurnedAfter(recvs: seq<Recv>, m: Summary)
    ensures var e := ReadEvent(recvs, m.inb.calls);
            var n, f := Next(m, e), Found(recvs, m.inb);
            && (e.RecvFailed? ==> f.None? && n.inb == Turned(recvs, m.inb))
            && (e.Received? ==>
                  && f == NextFrame(n.inb)
                  && Turned(recvs, m.inb) == Next(n, if f.Some? then Dispatched(f.value) else Quiet).inb)
  {
    AppendEmpty(m.inb.received);
  }

  lemma PolledTurn(recvs: seq<Recv>, i: Inbound, n: nat)
    ensures Polled(recvs, i, n) == PolledFrom(recvs, Found(recvs, i), Turned(recvs, i), n)
  {}

  // ------------------------------------------------------------ the closed form

  /** The stream after n more receive calls. */
  function StreamAfter(recvs: seq<Recv>, i: Inbound, n: nat): seq<byte> {
    if n == 0 then i.received else StreamAfter(recvs, i, n - 1) + BytesOf(ReadResult(recvs, i.calls + n - 1))
  }

  /** A turn of a poll: the stream it looks at, how many frames come before its own, its read. */
  datatype Turn = Turn(stream: seq<byte>, before: nat, read: Recv)

  /** Turn k, counted from 0: the stream after k + 1 receive calls, the last of which is its own. */
  function TurnAt(recvs: seq<Recv>, i: Inbound, k: nat): Turn {
    Turn(StreamAfter(recvs, i, k + 1), |i.emitted| + k, ReadResult(recvs, i.calls + k))
  }

  /** The frame a turn finds, if its read did not fail and the stream holds that many. */
  function FrameOf(t: Turn): Option<Frame> {
    if t.read != Failed && t.before < |DecodeAll(t.stream)| then Some(DecodeAll(t.stream)[t.before]) else None
  }

  /** What the turns of a poll find, each provided that the ones before it have found something. */
  function Turns(recvs: seq<Recv>, i: Inbound, n: nat): (turns: seq<Option<Frame>>)
    ensures |turns| == n
  {
    seq(n, k requires 0 <= k < n => FrameOf(TurnAt(recvs, i, k)))
  }

  /** Turn k finds a close, and every turn before it another frame. */
  predicate ClosesAt(turns: seq<Option<Frame>>, k: nat)
    requires k < |turns|
  {
    && turns[k].Some? && IsCloseFrame(turns[k].value)
    && forall j :: 0 <= j < k ==> turns[j].Some? && !IsCloseFrame(turns[j].value)
  }

  /** Some turn of a poll of at most n frames finds a close, and none before it finds nothing. */
  predicate MeetsClose(recvs: seq<Recv>, i: Inbound, n: nat) {
    exists k :: 0 <= k < n && ClosesAt(Turns(recvs, i, n), k)
  }

  /** The frames of turns, up to a close or the first turn without one. */
  function Taken(turns: seq<Option<Frame>>): seq<Frame> {
    if turns == [] || turns[0].None? then []
    else if IsCloseFrame(turns[0].value) then [turns[0].value]
    else [turns[0].value] + Taken(turns[1..])
  }

  lemma {:induction false} TakenClose(turns: seq<Option<Frame>>) returns (k: nat)
    requires EndsInClose(Taken(turns))
    ensures k < |turns| && ClosesAt(turns, k)
  {
    k := 0;
    if !IsCloseFrame(turns[0].value) {
      LastOf(turns[0].value, Taken(turns[1..]));
      k := TakenClose(turns[1..]);
      k := k + 1;
    }
  }

  lemma {:induction false} CloseTaken(turns: seq<Option<Frame>>, k: nat)
    requires k < |turns| && ClosesAt(turns, k)
    ensures EndsInClose(Taken(turns))
  {
    if k > 0 {
      forall j | 0 <= j < k - 1
        ensures turns[1..][j].Some? && !IsCloseFrame(turns[1..][j].value)
      {
        assert turns[1..][j] == turns[j + 1];
      }
      CloseTaken(turns[1..], k - 1);
      LastOf(turns[0].value, Taken(turns[1..]));
    }
  }

  lemma LastOf(f: Frame, fs: seq<Frame>)
    ensures EndsInClose([f] + fs) <==> EndsInClose(fs) || (fs == [] && IsCloseFrame(f))
  {}

  lemma {:induction false} StreamShift(recvs: seq<Recv>, i: Inbound, j: Inbound, n: nat)
    requires j.received == i.received + BytesOf(ReadResult(recvs, i.calls)) && j.calls == i.calls + 1
    ensures StreamAfter(recvs, j, n) == StreamAfter(recvs, i, n + 1)
  {
    if n > 0 {
      StreamShift(recvs, i, j, n - 1);
    }
  }

  lemma TurnShift(recvs: seq<Recv>, i: Inbound, j: Inbound, k: nat)
    requires j.received == i.received + BytesOf(ReadResult(recvs, i.calls)) && j.calls == i.calls + 1
    requires |j.emitted| == |i.emitted| + 1
    ensures TurnAt(recvs, j, k) == TurnAt(recvs, i, k + 1)
  {
    StreamShift(recvs, i, j, k + 1);
  }

  lemma FirstTurn(recvs: seq<Recv>, i: Inbound)
    ensures FrameOf(TurnAt(recvs, i, 0)) == Found(recvs, i)
  {
    assert StreamAfter(recvs, i, 0) == i.received;
  }

  lemma TurnsShift(recvs: seq<Recv>, i: Inbound, j: Inbound, n: nat)
    requires j.received == i.received + BytesOf(ReadResult(recvs, i.calls)) && j.calls == i.calls + 1
    requires |j.emitted| == |i.emitted| + 1 && n > 0
    ensures Turns(recvs, i, n)[1..] == Turns(recvs, j, n - 1)
  {
    forall k | 0 <= k < n - 1
      ensures Turns(recvs, i, n)[1..][k] == Turns(recvs, j, n - 1)[k]
    {
      TurnShift(recvs, i, j, k);
    }
  }

  /** The turns of a poll are its first turn and those of the poll that is left after it. */
  lemma TurnsSplit(recvs: seq<Recv>, i: Inbound, n: nat)
    requires n > 0
    ensures Turns(recvs, i, n)[0] == Found(recvs, i)
    ensures Found(recvs, i).Some? ==> Turns(recvs, i, n)[1..] == Turns(recvs, Turned(recvs, i), n - 1)
  {
    FirstTurn(recvs, i);
    if Found(recvs, i).Some? {
      TurnsShift(recvs, i, Turned(recvs, i), n);
    }
  }

  lemma {:induction false} PolledIsTaken(recvs: seq<Recv>, i: Inbound, n: nat)
    ensures Polled(recvs, i, n) == Taken(Turns(recvs, i, n))
    decreases n
  {
    if n > 0 {
      TurnsSplit(recvs, i, n);
      PolledTurn(recvs, i, n);
      if Found(recvs, i).Some? {
        PolledIsTaken(recvs, Turned(recvs, i), n - 1);
      }
    }
  }

  /** A poll ends in a close if and only if some turn of it finds one, all before it finding others. */
  lemma PollMeetsClose(recvs: seq<Recv>, i: Inbound, n: nat)
    ensures EndsInClose(Polled(recvs, i, n)) <==> MeetsClose(recvs, i, n)
  {
    PolledIsTaken(recvs, i, n);
    if EndsInClose(Polled(recvs, i, n)) {
      var k := TakenClose(Turns(recvs, i, n));
    } else if MeetsClose(recvs, i, n) {
      var k :| 0 <= k < n && ClosesAt(Turns(recvs, i, n), k);
      CloseTaken(Turns(recvs, i, n), k);
    }
  }

  // ------------------------------------------------------------ reports

  /**
    How far a poll has come since m, when n is reached: it has acted on `frames` and is
    about to act on f. `quiet` says that handlers only send, `closing` that the connection
    was open and the first handler to be called closes it.
  */
  ghost predicate Polling(cfg: Config, quiet: bool, closing: bool, m: Summary, n: Summary,
                          ok: bool, frames: seq<Frame>, f: Option<Frame>, limit: nat)
  {
    forall k :: Asked(AboutCounts, k) ==>
      && Later(m, n) && |frames| <= limit && (f.Some? ==> |frames| < limit)
      && Found(cfg.recvs, m.inb) == (if frames == [] then f else Some(frames[0]))
      && (EndsInClose(frames) ==> f.None? && ServerCloses(m, n) >= 1)
      && (frames == [] ==> ServerCloses(m, n) == 0 && ClientCloses(m, n) == 0)
      && (quiet ==> ServerCloses(m, n) == (if EndsInClose(frames) then 1 else 0) && ClientCloses(m, n) == 0)
      && (quiet && ok ==>
            Polled(cfg.recvs, m.inb, limit) == frames + PolledFrom(cfg.recvs, f, n.inb, limit - |frames|))
      && (closing && frames != [] && IsData(frames[0]) && !n.faulted ==> ClientCloses(m, n) >= 1)
  }

  /** One turn of a poll, from m to n: it has acted on f, and read on unless it was the last. */
  ghost predicate TurnMade(cfg: Config, quiet: bool, closing: bool, m: Summary, n: Summary,
                           ok: bool, f: Frame, g: Option<Frame>, last: bool)
  {
    forall k :: Asked(AboutCounts, k) ==>
      && Later(m, n)
      && (IsCloseFrame(f) || last ==> g.None?)
      && (IsCloseFrame(f) ==> ServerCloses(m, n) >= 1)
      && (quiet ==> ServerCloses(m, n) == (if IsCloseFrame(f) then 1 else 0) && ClientCloses(m, n) == 0)
      && (quiet && ok && !IsCloseFrame(f) && !last ==>
            g == Found(cfg.recvs, m.inb) && n.inb == Turned(cfg.recvs, m.inb))
      && (closing && IsData(f) && !n.faulted ==> ClientCloses(m, n) >= 1)
  }

  /** What has been done about f, from m to n. */
  ghost predicate Acted(quiet: bool, closing: bool, m: Summary, n: Summary, f: Frame) {
    forall k :: Asked(AboutCounts, k) ==>
      && Later(m, n)
      && (IsCloseFrame(f) ==> ServerCloses(m, n) >= 1)
      && (quiet ==>
            && n.inb == m.inb && ClientCloses(m, n) == 0
            && ServerCloses(m, n) == (if IsCloseFrame(f) then 1 else 0))
      && (closing && IsData(f) && !n.faulted ==> ClientCloses(m, n) >= 1)
  }

  lemma TurnStops(cfg: Config, quiet: bool, closing: bool, m: Summary, n: Summary,
                  ok: bool, f: Frame, last: bool)
    requires Acted(quiet, closing, m, n, f) && (ok ==> IsCloseFrame(f) || last)
    ensures TurnMade(cfg, quiet, closing, m, n, ok, f, None, last)
  {
    assert Asked(AboutCounts, 0);
  }

  lemma TurnGoesOn(cfg: Config, quiet: bool, closing: bool, m: Summary, n: Summary, p: Summary,
                   ok: bool, f: Frame)
    requires Acted(quiet, closing, m, n, f) && !IsCloseFrame(f)
    requires Later(n, p) && ServerCloses(n, p) == 0 && ClientCloses(n, p) == 0
    requires p.inb == Turned(cfg.recvs, n.inb)
    ensures TurnMade(cfg, quiet, closing, m, p, ok, f, Found(cfg.recvs, n.inb), false)
  {
    assert Asked(AboutCounts, 0);
  }

  lemma PollingStarts(cfg: Config, quiet: bool, closing: bool, m: Summary, n: Summary, ok: bool, limit: nat)
    requires limit > 0 && n.inb == Turned(cfg.recvs, m.inb)
    requires Later(m, n) && ServerCloses(m, n) == 0 && ClientCloses(m, n) == 0
    ensures Polling(cfg, quiet, closing, m, n, ok, [], Found(cfg.recvs, m.inb), limit)
  {
    PolledTurn(cfg.recvs, m.inb, limit);
  }

  lemma PollingStep(cfg: Config, quiet: bool, closing: bool, q: bool, c: bool, m: Summary, n: Summary, p: Summary,
                    ok: bool, frames: seq<Frame>, f: Frame, g: Option<Frame>, limit: nat)
    requires Polling(cfg, quiet, closing, m, n, true, frames, Some(f), limit)
    requires TurnMade(cfg, q, c, n, p, ok, f, g, |frames| + 1 >= limit)
    requires (quiet ==> q) && (frames == [] && closing ==> c)
    ensures Polling(cfg, quiet, closing, m, p, ok, frames + [f], g, limit)
  {
    assert Asked(AboutCounts, 0);
    LastAndFirst(frames, f);
    if quiet && ok {
      ForeseenStep(cfg.recvs, Polled(cfg.recvs, m.inb, limit), frames, f, n.inb, g, p.inb, limit);
    }
  }

  lemma LastAndFirst(frames: seq<Frame>, f: Frame)
    ensures EndsInClose(frames + [f]) <==> IsCloseFrame(f)
    ensures (frames + [f])[0] == if frames == [] then f else frames[0]
  {}

  /** One turn moves one frame from what is to come to what has been. */
  lemma ForeseenStep(recvs: seq<Recv>, all: seq<Frame>, fs: seq<Frame>, f: Frame, i: Inbound,
                     g: Option<Frame>, j: Inbound, limit: nat)
    requires |fs| < limit && all == fs + PolledFrom(recvs, Some(f), i, limit - |fs|)
    requires if IsCloseFrame(f) || |fs| + 1 >= limit then g.None? else g == Found(recvs, i) && j == Turned(recvs, i)
    ensures all == fs + [f] + PolledFrom(recvs, g, j, limit - |fs + [f]|)
  {
    var rest := if IsCloseFrame(f) then [] else Polled(recvs, i, limit - |fs| - 1);
    assert PolledFrom(recvs, g, j, limit - |fs + [f]|) == rest by {
      if !IsCloseFrame(f) {
        PolledTurn(recvs, i, limit - |fs| - 1);
      }
    }
    assert [f] + rest == PolledFrom(recvs, Some(f), i, limit - |fs|);
    Regroup(fs, [f], rest);
  }

  lemma PollingEnds(cfg: Config, quiet: bool, closing: bool, m: Summary, n: Summary, p: Summary,
                    ok: bool, frames: seq<Frame>, limit: nat)
    requires Polling(cfg, quiet, closing, m, n, true, frames, None, limit)
    requires Later(n, p) && ServerCloses(n, p) == 0 && ClientCloses(n, p) == 0
    ensures Polling(cfg, quiet, closing, m, p, ok, frames, None, limit)
  {
    assert Asked(AboutCounts, 0);
  }

  /** The close handler was called, and a close frame sent, once for every close. */
  predicate OncePerClose(m: Summary, n: Summary) {
    && CloseCalls(m, n) == ServerCloses(m, n) + ClientCloses(m, n)
    && CloseCalls(m, n) == n.acc.closesSent - m.acc.closesSent
  }

  /**
    What a close of an open connection amounts to, from m to n, when its own poll acted on
    `frames`. Without a fault the close handler is called once for every close, so exactly
    once if and only if the server did not close and no handler closed too. If handlers only
    send, that is: if and only if no turn of the poll meets a close. A handler that closes on
    the first frame makes it two.
  */
  ghost predicate CloseMade(cfg: Config, quiet: bool, closing: bool, m: Summary, n: Summary,
                            ok: bool, frames: seq<Frame>, limit: nat)
  {
    forall k :: Asked(AboutCounts, k) ==>
      && Found(cfg.recvs, m.inb) == (if frames == [] then None else Some(frames[0]))
      && (ok ==> ClientCloses(m, n) >= 1)
      && (EndsInClose(frames) ==> ServerCloses(m, n) >= 1)
      && (ok && quiet ==>
            && frames == Polled(cfg.recvs, m.inb, limit) && ClientCloses(m, n) == 1
            && ServerCloses(m, n) == (if EndsInClose(frames) then 1 else 0))
      && (!n.faulted ==>
            && ok && OncePerClose(m, n)
            && (CloseCalls(m, n) == 1 <==> ServerCloses(m, n) == 0 && ClientCloses(m, n) == 1)
            && (EndsInClose(frames) ==> CloseCalls(m, n) >= 2)
            && (quiet ==> (CloseCalls(m, n) == 1 <==> !MeetsClose(cfg.recvs, m.inb, limit)))
            && (closing && frames != [] && IsData(frames[0]) ==> CloseCalls(m, n) >= 2))
  }

  /** A poll up to n that throws ends the close there. */
  lemma CloseBroken(cfg: Config, quiet: bool, closing: bool, m: Summary, n: Summary,
                    frames: seq<Frame>, limit: nat)
    requires Polling(cfg, quiet, closing, m, n, false, frames, None, limit) && n.faulted
    ensures CloseMade(cfg, quiet, closing, m, n, false, frames, limit)
  {
    assert Asked(AboutCounts, 0);
  }

  /** A poll from m to p that returns, and a close from this side from p to n. */
  lemma CloseAddsUp(cfg: Config, quiet: bool, closing: bool, m: Summary, p: Summary, n: Summary,
                    ok: bool, frames: seq<Frame>, limit: nat)
    requires Polling(cfg, quiet, closing, m, p, true, frames, None, limit)
    requires Later(p, n) && Fair(m) && Fair(n) && (!ok ==> n.faulted)
    requires ok ==> ClientCloses(p, n) >= 1
    requires ok && quiet ==> ServerCloses(p, n) == 0 && ClientCloses(p, n) == 1
    ensures CloseMade(cfg, quiet, closing, m, n, ok, frames, limit)
  {
    assert Asked(AboutCounts, 0);
    PollMeetsClose(cfg.recvs, m.inb, limit);
    if !n.faulted {
      CallsAddUp(m, n);
    }
  }

  /** What counts for CloseMade is the same. */
  predicate SameForClose(m: Summary, n: Summary) {
    && m.inb == n.inb && m.faulted == n.faulted && m.acc.closesSent == n.acc.closesSent
    && CloseCalls(m, n) == 0 && ServerCloses(m, n) == 0 && ClientCloses(m, n) == 0
  }

  lemma CloseMadeAround(cfg: Config, quiet: bool, closing: bool, m: Summary, m1: Summary, n1: Summary, n: Summary,
                        ok: bool, frames: seq<Frame>, limit: nat)
    requires SameForClose(m, m1) && SameForClose(n1, n)
    requires CloseMade(cfg, quiet, closing, m1, n1, ok, frames, limit)
    ensures CloseMade(cfg, quiet, closing, m, n, ok, frames, limit)
  {
    assert Asked(AboutCounts, 0);
  }
}
