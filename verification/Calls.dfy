/**
  What programs and handlers do with a client: scripts of public calls, and the stack of
  scripts that are being carried out, since a handler runs inside the call that it serves.
*/
module Calls {
  import opened Bytes
  import opened Frames

  /** A call into the client, from a handler or from the program; exceptions may be caught. */
  datatype Op =
    | Poll(maxReads: int)
    | Close(timeout: int)
    | SendText(payload: seq<byte>)
    | SendBinary(payload: seq<byte>)
  datatype Call = Call(op: Op, catches: bool)

  /** What the open handler does: it only sends. */
  datatype Greeting = Greeting(text: bool, payload: seq<byte>, catches: bool)

  /** A data frame that somebody asked for. */
  datatype Request = Request(opcode: byte, payload: seq<byte>)

  predicate IsSend(op: Op) {
    op.SendText? || op.SendBinary?
  }

  function Asked1(op: Op): Request
    requires IsSend(op)
  {
    Request(if op.SendText? then TEXT else BINARY, op.payload)
  }

  /** The data frames that a call asks for itself. */
  function AskedBy(op: Op): seq<Request> {
    if IsSend(op) then [Asked1(op)] else []
  }

  /** The data frames that a script asks for, without those of handlers that run inside it. */
  function AskedIn(calls: seq<Call>): seq<Request> {
    if calls == [] then [] else AskedBy(calls[0].op) + AskedIn(calls[1..])
  }

  function CallsOf(greetings: seq<Greeting>): (calls: seq<Call>)
    ensures OnlySends(calls) && |calls| == |greetings|
  {
    seq(|greetings|, i requires 0 <= i < |greetings| =>
      var g := greetings[i];
      Call(if g.text then SendText(g.payload) else SendBinary(g.payload), g.catches))
  }

  /** A script that does not go back into `poll` or `close`. */
  predicate OnlySends(script: seq<Call>) {
    forall i :: 0 <= i < |script| ==> IsSend(script[i].op)
  }

  ghost predicate AllOnlySend(scripts: seq<seq<Call>>) {
    forall i :: Asked(AboutScripts, i) && 0 <= i < |scripts| ==> OnlySends(scripts[i])
  }

  lemma OthersOnlySend(scripts: seq<seq<Call>>)
    requires AllOnlySend(scripts) && scripts != []
    ensures OnlySends(scripts[0]) && AllOnlySend(scripts[1..])
  {
    assert Asked(AboutScripts, 0);
    forall i | 0 <= i < |scripts| - 1
      ensures OnlySends(scripts[1..][i])
    {
      assert Asked(AboutScripts, i + 1);
    }
  }

  /** The next handler to be called closes the connection first of all. */
  predicate FirstCloses(scripts: seq<seq<Call>>) {
    scripts != [] && scripts[0] != [] && scripts[0][0].op.Close?
  }

  /** The n-th script of a tape; a tape that has run out stands for handlers that do nothing. */
  function ScriptAt(scripts: seq<seq<Call>>, n: nat): seq<Call> {
    if n < |scripts| then scripts[n] else []
  }

  // ------------------------------------------------------------ scripts under way

  /** The calls left, the first of which is being made if `busy`. */
  datatype Script = Script(calls: seq<Call>, busy: bool)

  /** Scripts under way: each runs inside the call that the one below it is making. */
  datatype Stack = Empty | On(top: Script, below: Stack)

  /** The scripts under way, and how many handlers and programs have started. */
  datatype Run = Run(todo: Stack, handlers: nat, programs: nat)

  /** The innermost script is making a call. */
  predicate InCall(r: Run) {
    r.todo.On? && r.todo.top.busy && r.todo.top.calls != []
  }

  /** That call is one that handles frames. */
  predicate Inside(r: Run) {
    InCall(r) && !IsSend(r.todo.top.calls[0].op)
  }

  /** The innermost script makes this call next. */
  predicate Ready(r: Run, op: Op) {
    r.todo.On? && !r.todo.top.busy && r.todo.top.calls != [] && r.todo.top.calls[0].op == op
  }

  /** The same scripts are under way as before; handlers may have come and gone. */
  predicate Resumed(r: Run, s: Run) {
    r.todo == s.todo && r.programs == s.programs && r.handlers <= s.handlers
  }

  function Entering(r: Run, script: seq<Call>): Run {
    r.(todo := On(Script(script, false), r.todo))
  }

  function Calling(r: Run): Run {
    if r.todo == Empty then r else r.(todo := r.todo.(top := r.todo.top.(busy := true)))
  }

  function Returning(r: Run, ok: bool): Run {
    if r.todo == Empty || r.todo.top.calls == [] then r
    else r.(todo := r.todo.(top := Script(AfterCall(r.todo.top.calls, ok), false)))
  }

  /** A script goes on after a call, unless that has thrown and the script does not catch it. */
  function AfterCall(calls: seq<Call>, ok: bool): seq<Call>
    requires calls != []
  {
    if ok || calls[0].catches then calls[1..] else []
  }

  function Ending(r: Run): Run {
    if r.todo == Empty then r else r.(todo := r.todo.below)
  }

  /** What a script under way is still going to ask for, if nothing throws. */
  function LeftIn(s: Script): seq<Request> {
    if s.busy && s.calls != [] then AskedIn(s.calls[1..]) else AskedIn(s.calls)
  }

  function LeftInAll(todo: Stack): seq<Request> {
    if todo == Empty then [] else LeftIn(todo.top) + LeftInAll(todo.below)
  }

  /** What the first n scripts of a tape ask for, one after the other. */
  function AskedInFirst(scripts: seq<seq<Call>>, n: nat): seq<Request> {
    if n == 0 then [] else AskedInFirst(scripts, n - 1) + AskedIn(ScriptAt(scripts, n - 1))
  }
}
