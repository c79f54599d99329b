/**
  The socket wrapper around non-blocking system calls. What the calls will return is an
  arbitrary finite tape; what they write is collected in `wire`. A tape that has run out
  stands for a quiet peer and writes that take everything.
*/
module Sockets {
  import opened Bytes
  import opened FrameBuffers

  /** One receive call: bytes, nothing for now (or a closed peer), or an error. */
  datatype Recv = Data(bytes: seq<byte>) | Nothing | Failed

  const TWO_31: nat := 0x8000_0000
  const TWO_32: nat := 0x1_0000_0000

  /** static_cast<int> of a size: the low 32 bits, as a signed number. */
  function ToInt32(n: nat): int {
    (n + TWO_31) % TWO_32 - TWO_31
  }

  /** How many bytes a `send` of n bytes hands to the system before it returns normally. */
  function SendCount(n: nat): nat {
    Max(0, ToInt32(n))
  }

  /** `send` sends everything exactly for sizes that fit in an int. */
  lemma SendsAllIffInt(n: nat)
    ensures SendCount(n) <= n
    ensures SendCount(n) == n <==> n < TWO_31
  {}

  /** Two gigabytes are dropped without an error, and four gigabytes and one byte become one byte. */
  lemma LargeSendsAreCut()
    ensures SendCount(TWO_31) == 0 && SendCount(TWO_32 + 1) == 1
  {}

  /** What the next receive call returns, and the tape after any call. */
  function NextRecv(recvs: seq<Recv>, limit: nat): (r: Recv)
    ensures r.Data? ==> |r.bytes| <= limit
  {
    if recvs == [] then Nothing
    else
      match recvs[0]
      case Data(bytes) => Data(bytes[..Min(|bytes|, limit)])
      case r => r
  }

  /** The client never asks for more than this at a time. */
  const READ_LIMIT := 1024

  /** What is left of a tape after n calls. */
  function Drop<T>(tape: seq<T>, n: nat): seq<T> {
    if n <= |tape| then tape[n..] else []
  }

  lemma DropRest<T>(tape: seq<T>, n: nat)
    ensures Rest(Drop(tape, n)) == Drop(tape, n + 1)
  {}

  /** What the n-th read of a client returns. */
  function ReadResult(recvs: seq<Recv>, n: nat): Recv {
    NextRecv(Drop(recvs, n), READ_LIMIT)
  }

  /** A read takes in at most 1024 bytes; the rest of what a call would have had is not modelled. */
  lemma ReadsAtMost1024(recvs: seq<Recv>, n: nat)
    ensures n >= |recvs| ==> ReadResult(recvs, n) == Nothing
    ensures n < |recvs| ==>
              && (ReadResult(recvs, n) == Failed <==> recvs[n] == Failed)
              && BytesOf(ReadResult(recvs, n))
                 == (if !recvs[n].Data? then [] else if |recvs[n].bytes| <= 1024 then recvs[n].bytes
                     else recvs[n].bytes[..1024])
  {}

  function BytesOf(r: Recv): seq<byte> {
    if r.Data? then r.bytes else []
  }

  function Rest<T>(tape: seq<T>): seq<T> {
    if tape == [] then [] else tape[1..]
  }

  class Socket {
    var recvs: seq<Recv>
    var writes: seq<int>
    var wire: seq<byte>

    constructor (recvs: seq<Recv>, writes: seq<int>)
      ensures this.recvs == recvs && this.writes == writes && wire == []
    {
      this.recvs, this.writes, wire := recvs, writes, [];
    }

    /** recv or SSL_read_ex: at most `limit` bytes. */
    method SysRecv(limit: nat) returns (r: Recv)
      modifies this`recvs
      ensures r == NextRecv(old(recvs), limit) && recvs == Rest(old(recvs))
    {
      r := NextRecv(recvs, limit);
      recvs := Rest(recvs);
    }

    /** send or SSL_write: a negative result is an error, otherwise that many bytes are taken. */
    method SysWrite(offered: seq<byte>) returns (ret: int)
      requires offered != []
      modifies this`writes, this`wire
      ensures ret == if old(writes) == [] then |offered| else Min(old(writes)[0], |offered|)
      ensures wire == old(wire) + offered[..Max(0, ret)]
      ensures writes == Rest(old(writes))
    {
      ret := |offered|;
      if writes != [] {
        ret := Min(writes[0], |offered|);
        writes := writes[1..];
      }
      wire := wire + offered[..Max(0, ret)];
    }

    /** Loops over partial writes; `ok` is false when an exception is thrown. */
    method Send(req: seq<byte>) returns (ok: bool, count: nat)
      modifies this`writes, this`wire
      ensures count <= SendCount(|req|) <= |req|
      ensures wire == old(wire) + req[..count]
      ensures ok <==> count == SendCount(|req|)
      ensures old(writes) == [] ==> ok && writes == []
    {
      SendsAllIffInt(|req|);
      var toSend := ToInt32(|req|);
      count := 0;
      while toSend > 0
        invariant count <= |req| && Max(0, toSend) == SendCount(|req|) - count
        invariant wire == old(wire) + req[..count]
        invariant old(writes) == [] ==> writes == []
        decreases |writes|, toSend
      {
        var offered := req[count..count + toSend];
        var ret := SysWrite(offered);
        if ret < 0 {
          return false, count;
        }
        assert req[..count + ret] == req[..count] + offered[..ret];
        toSend := toSend - ret;
        count := count + ret;
      }
      ok := true;
    }

    /** Reads into the buffer's tail, behind whatever it still holds. */
    method ReadInto(fb: FrameBuffer, hint: nat) returns (ok: bool, newData: bool, got: seq<byte>)
      requires fb.Valid()
      modifies this`recvs, fb
      ensures fb.Valid() && fb.Contents() == old(fb.Contents()) + got
      ensures got == BytesOf(NextRecv(old(recvs), hint)) && recvs == Rest(old(recvs))
      ensures |fb.buf| == Max(old(|fb.buf|), old(fb.ptr) + hint)
      ensures (newData <==> got != []) && (ok <==> NextRecv(old(recvs), hint) != Failed)
    {
      ok, newData, got := true, false, [];
      fb.EnsureExtraSpace(hint);
      var r := SysRecv(hint);
      match r
      case Failed => ok := false;
      case Nothing =>
      case Data(bytes) =>
        if |bytes| > 0 {
          newData := true;
          fb.Receive(bytes);
          got := bytes;
        }
    }

    method Read(limit: nat) returns (ok: bool, bytes: seq<byte>)
      modifies this`recvs
      ensures bytes == BytesOf(NextRecv(old(recvs), limit)) && recvs == Rest(old(recvs))
      ensures ok <==> NextRecv(old(recvs), limit) != Failed
    {
      var r := SysRecv(limit);
      ok := r != Failed;
      bytes := BytesOf(r);
    }
  }
}
