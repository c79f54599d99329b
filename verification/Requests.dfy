/**
  What was asked for and what went out: in every legal history the data frames written are
  those that handlers and programs ask for, in the order in which their scripts run.
*/
module Requests {
  import opened Bytes
  import opened Frames
  import opened Streams
  import opened Calls
  import opened Trace
  import opened Theorems

  // ------------------------------------------------------------ the plan

  /**
    A plan of all data frames, those asked for so far and those still to come. A script that
    starts puts its own right behind those asked for so far, because it runs inside the call
    that its caller is making; an exception that it does not catch takes the rest of them out.
  */
  function PlanAfter(plan: seq<Request>, m: Summary, e: Event): seq<Request> {
    var n := |m.acc.asked|;
    if n > |plan| then plan
    else
      match e
      case Entered(script) => plan[..n] + AskedIn(script) + plan[n..]
      case Launched(script) => plan[..n] + AskedIn(script) + plan[n..]
      case Returned(ok) => plan[..n] + plan[Min(n + |TakenOut(m.run, ok)|, |plan|)..]
      case _ => plan
  }

  /** What an exception keeps the innermost script from asking for. */
  function TakenOut(r: Run, ok: bool): seq<Request> {
    if InCall(r) && !ok && !r.todo.top.calls[0].catches then LeftIn(r.todo.top) else []
  }

  function Plan(log: seq<Event>): seq<Request> {
    if log == [] then []
    else PlanAfter(Plan(log[..|log| - 1]), SummaryOf(log[..|log| - 1]), log[|log| - 1])
  }

  /** So far the plan has been carried out, and this is what is left of it. */
  predicate OnPlan(m: Summary, plan: seq<Request>) {
    plan == m.acc.asked + LeftInAll(m.run.todo)
  }

  lemma Insert(asked: seq<Request>, more: seq<Request>, left: seq<Request>, plan: seq<Request>)
    requires plan == asked + left
    ensures plan[..|asked|] + more + plan[|asked|..] == asked + (more + left)
  {}

  lemma Remove(asked: seq<Request>, gone: seq<Request>, left: seq<Request>, plan: seq<Request>)
    requires plan == asked + (gone + left)
    ensures |asked| + |gone| <= |plan|
    ensures plan[..|asked|] + plan[|asked| + |gone|..] == asked + left
  {}

  lemma EnteringOnPlan(m: Summary, e: Event, plan: seq<Request>)
    requires OnPlan(m, plan) && (e.Entered? || e.Launched?)
    ensures OnPlan(Next(m, e), PlanAfter(plan, m, e))
  {
    Insert(m.acc.asked, AskedIn(e.script), LeftInAll(m.run.todo), plan);
  }

  lemma CallingOnPlan(m: Summary, e: Event, plan: seq<Request>)
    requires OnPlan(m, plan) && e.Called? && Ready(m.run, e.op)
    ensures OnPlan(Next(m, e), PlanAfter(plan, m, e))
  {
    var calls := m.run.todo.top.calls;
    Reassociate(m.acc.asked, AskedBy(e.op), AskedIn(calls[1..]), LeftInAll(m.run.todo.below));
  }

  lemma Reassociate(a: seq<Request>, b: seq<Request>, c: seq<Request>, d: seq<Request>)
    ensures a + (b + c + d) == a + b + (c + d)
  {}

  lemma LeftAfter(r: Run, ok: bool)
    requires InCall(r)
    ensures LeftInAll(r.todo) == TakenOut(r, ok) + LeftInAll(Returning(r, ok).todo)
  {
    var top, below := r.todo.top, LeftInAll(r.todo.below);
    if ok || top.calls[0].catches {
      assert LeftIn(Script(top.calls[1..], false)) == LeftIn(top);
      assert [] + (LeftIn(top) + below) == LeftIn(top) + below;
    } else {
      assert LeftIn(Script([], false)) == [];
      assert LeftIn(top) + below == LeftIn(top) + ([] + below);
    }
  }

  lemma ReturningOnPlan(m: Summary, e: Event, plan: seq<Request>)
    requires OnPlan(m, plan) && e.Returned? && InCall(m.run)
    ensures OnPlan(Next(m, e), PlanAfter(plan, m, e))
  {
    LeftAfter(m.run, e.ok);
    Remove(m.acc.asked, TakenOut(m.run, e.ok), LeftInAll(Returning(m.run, e.ok).todo), plan);
  }

  lemma PlanStep(cfg: Config, m: Summary, e: Event, plan: seq<Request>)
    requires Admissible(cfg, m, e) && OnPlan(m, plan)
    ensures OnPlan(Next(m, e), PlanAfter(plan, m, e))
  {
    match e
    case Entered(_) => EnteringOnPlan(m, e, plan);
    case Launched(_) => EnteringOnPlan(m, e, plan);
    case Called(_) => CallingOnPlan(m, e, plan);
    case Returned(_) => ReturningOnPlan(m, e, plan);
    case Ended => assert [] + LeftInAll(m.run.todo.below) == LeftInAll(m.run.todo.below);
    case _ =>
  }

  /**
    Every data frame is asked for as planned: at any point those asked for so far, followed by
    what the scripts under way are still going to ask for, are the plan.
  */
  lemma {:induction false} RequestsFollowPlan(cfg: Config, log: seq<Event>)
    requires Legal(cfg, log)
    ensures SummaryOf(log).acc.asked + LeftInAll(SummaryOf(log).run.todo) == Plan(log)
  {
    if log != [] {
      LegalInit(cfg, log);
      RequestsFollowPlan(cfg, log[..|log| - 1]);
      PlanLast(cfg, log);
    }
  }

  lemma PlanLast(cfg: Config, log: seq<Event>)
    requires Legal(cfg, log) && log != []
    requires OnPlan(SummaryOf(log[..|log| - 1]), Plan(log[..|log| - 1]))
    ensures OnPlan(SummaryOf(log), Plan(log))
  {
    LegalLast(cfg, log);
    PlanStep(cfg, SummaryOf(log[..|log| - 1]), log[|log| - 1], Plan(log[..|log| - 1]));
  }

  // ------------------------------------------------------------ none lost, none invented

  /** What the first n scripts of a tape ask for, in any order. */
  function Tally(scripts: seq<seq<Call>>, n: nat): multiset<Request> {
    if n == 0 then multiset{} else Tally(scripts, n - 1) + multiset(AskedIn(ScriptAt(scripts, n - 1)))
  }

  /** All that handlers and programs have started to ask for. */
  function TallyOf(cfg: Config, r: Run): multiset<Request> {
    Tally(cfg.scripts, r.handlers) + Tally(cfg.programs, r.programs)
  }

  lemma MoreOf(a: seq<Request>, b: seq<Request>, c: seq<Request>, plan: seq<Request>)
    requires plan == a + c
    ensures multiset(a + b + c) == multiset(plan) + multiset(b)
  {
    assert multiset(a + b + c) == multiset(a) + multiset(b) + multiset(c);
  }

  lemma EnteringCounts(m: Summary, e: Event, plan: seq<Request>)
    requires OnPlan(m, plan) && (e.Entered? || e.Launched?)
    ensures multiset(PlanAfter(plan, m, e)) == multiset(plan) + multiset(AskedIn(e.script))
  {
    var n := |m.acc.asked|;
    assert plan == plan[..n] + plan[n..];
    MoreOf(plan[..n], AskedIn(e.script), plan[n..], plan);
  }

  lemma AddLeft(x: multiset<Request>, y: multiset<Request>, z: multiset<Request>)
    ensures (x + z) + y == (x + y) + z
    ensures x + (y + z) == (x + y) + z
  {}

  lemma StartsHandler(cfg: Config, r: Run, s: Run, script: seq<Call>)
    requires script == ScriptAt(cfg.scripts, r.handlers)
    requires s.handlers == r.handlers + 1 && s.programs == r.programs
    ensures TallyOf(cfg, s) == TallyOf(cfg, r) + multiset(AskedIn(script))
  {
    AddLeft(Tally(cfg.scripts, r.handlers), Tally(cfg.programs, r.programs), multiset(AskedIn(script)));
  }

  lemma StartsProgram(cfg: Config, r: Run, s: Run, script: seq<Call>)
    requires script == ScriptAt(cfg.programs, r.programs)
    requires s.handlers == r.handlers && s.programs == r.programs + 1
    ensures TallyOf(cfg, s) == TallyOf(cfg, r) + multiset(AskedIn(script))
  {
    AddLeft(Tally(cfg.scripts, r.handlers), Tally(cfg.programs, r.programs), multiset(AskedIn(script)));
  }

  lemma StartsNone(cfg: Config, m: Summary, e: Event, plan: seq<Request>)
    requires Admissible(cfg, m, e) && OnPlan(m, plan) && !m.faulted && !e.Entered? && !e.Launched?
    ensures PlanAfter(plan, m, e) == plan && TallyOf(cfg, Next(m, e).run) == TallyOf(cfg, m.run)
  {
    assert plan[..|m.acc.asked|] + plan[|m.acc.asked|..] == plan;
  }

  lemma StartedStep(cfg: Config, m: Summary, e: Event, plan: seq<Request>)
    requires Admissible(cfg, m, e) && OnPlan(m, plan) && !m.faulted && multiset(plan) == TallyOf(cfg, m.run)
    ensures multiset(PlanAfter(plan, m, e)) == TallyOf(cfg, Next(m, e).run)
  {
    if e.Entered? || e.Launched? {
      EnteringCounts(m, e, plan);
      if e.Entered? {
        StartsHandler(cfg, m.run, Next(m, e).run, e.script);
      } else {
        StartsProgram(cfg, m.run, Next(m, e).run, e.script);
      }
    } else {
      StartsNone(cfg, m, e, plan);
    }
  }

  /** Without a fault the plan holds just what the scripts ask for that have started. */
  lemma {:induction false} PlanHoldsScripts(cfg: Config, log: seq<Event>)
    requires Legal(cfg, log) && !SummaryOf(log).faulted
    ensures multiset(Plan(log)) == TallyOf(cfg, SummaryOf(log).run)
  {
    if log != [] {
      LegalInit(cfg, log);
      LaterStep(SummaryOf(log[..|log| - 1]), log[|log| - 1]);
      PlanHoldsScripts(cfg, log[..|log| - 1]);
      StartedLast(cfg, log);
    }
  }

  lemma StartedLast(cfg: Config, log: seq<Event>)
    requires Legal(cfg, log) && log != [] && !SummaryOf(log[..|log| - 1]).faulted
    requires multiset(Plan(log[..|log| - 1])) == TallyOf(cfg, SummaryOf(log[..|log| - 1]).run)
    ensures multiset(Plan(log)) == TallyOf(cfg, SummaryOf(log).run)
  {
    LegalLast(cfg, log);
    RequestsFollowPlan(cfg, log[..|log| - 1]);
    StartedStep(cfg, SummaryOf(log[..|log| - 1]), log[|log| - 1], Plan(log[..|log| - 1]));
  }

  /**
    Conservation, whatever handlers re-enter: when nothing is under way any more and nothing
    has thrown, the data frames asked for, and those sent, are those of all programs and
    handlers that have started, none lost, none twice and none besides.
  */
  lemma RequestsConserved(cfg: Config, log: seq<Event>)
    requires Legal(cfg, log) && Even(SummaryOf(log)) && !SummaryOf(log).faulted
    requires SummaryOf(log).run.todo == Empty
    ensures var m := SummaryOf(log);
            && m.acc.sent == m.acc.asked == Plan(log)
            && multiset(m.acc.asked) == TallyOf(cfg, m.run)
  {
    RequestsFollowPlan(cfg, log);
    PlanHoldsScripts(cfg, log);
    assert SummaryOf(log).acc.asked + [] == SummaryOf(log).acc.asked;
  }

  /** A handler has been called and its script has not started yet. */
  function Starting(due: Due): nat {
    if due == Show(true) || due.Enter? then 1 else 0
  }

  /** How many handlers have been called, after the open handler. */
  function HandlersCalled(a: Accounts): nat {
    |a.handled| + a.closeCalls
  }

  lemma HandlerStep(cfg: Config, m: Summary, e: Event)
    requires Admissible(cfg, m, e) && m.run.handlers + Starting(m.due) == 1 + HandlersCalled(m.acc)
    ensures var n := Next(m, e); n.run.handlers + Starting(n.due) == 1 + HandlersCalled(n.acc)
  {
    if e.Opened? {
      assert Asked(AboutCounts, 0);
    }
  }

  lemma FirstHandler(m: Summary, e: Event)
    requires m == START && e == Opened
    ensures Next(m, e).run.handlers + Starting(Next(m, e).due) == 1 + HandlersCalled(Next(m, e).acc)
  {}

  /** Every handler that is called carries out its script: the scripts started are as many as the calls. */
  lemma {:induction false} HandlersCounted(cfg: Config, log: seq<Event>)
    requires Legal(cfg, log) && log != [] && log[0] == Opened
    ensures var m := SummaryOf(log); m.run.handlers + Starting(m.due) == 1 + HandlersCalled(m.acc)
  {
    LegalLast(cfg, log);
    if |log| == 1 {
      assert log[..0] == [];
      FirstHandler(SummaryOf([]), log[0]);
    } else {
      HandlersCounted(cfg, log[..|log| - 1]);
      HandlerStep(cfg, SummaryOf(log[..|log| - 1]), log[|log| - 1]);
    }
  }

  // ------------------------------------------------------------ on the wire

  /** The text and binary frames among some frames. */
  function DataIn(fs: seq<Frame>): seq<Request> {
    if fs == [] then []
    else DataIn(fs[..|fs| - 1]) + DataOfOne(fs[|fs| - 1])
  }

  function DataOfOne(f: Frame): seq<Request> {
    if f.opcode in {0x1, 0x2} then [Request(f.opcode, f.payload)] else []
  }

  lemma DataAppend(fs: seq<Frame>, f: Frame)
    requires f.opcode < 16
    ensures DataIn(NormalAll(fs + [f])) == DataIn(NormalAll(fs)) + DataOfOne(f)
  {
    assert NormalAll(fs + [f]) == NormalAll(fs) + [Normal(f)];
    assert (NormalAll(fs) + [Normal(f)])[..|fs|] == NormalAll(fs);
  }

  /** What has been asked for and not been written yet. */
  function Awaited(due: Due): seq<Request> {
    if due.Ask? then [due.request] else []
  }

  lemma WriteStep(cfg: Config, m: Summary, e: Event)
    requires Admissible(cfg, m, e) && InFull(e)
    ensures Next(m, e).acc.sent == m.acc.sent + (if e.Wrote? then DataOfOne(e.frame) else [])
    ensures m.acc.sent + Awaited(m.due) == m.acc.asked ==>
              Next(m, e).acc.sent + Awaited(Next(m, e).due) == Next(m, e).acc.asked
    ensures e.Wrote? ==> e.frame.opcode < 16
  {}

  lemma WriteLast(cfg: Config, log: seq<Event>)
    requires Legal(cfg, log) && log != [] && InFull(log[|log| - 1])
    ensures var m, n, e := SummaryOf(log[..|log| - 1]), SummaryOf(log), log[|log| - 1];
            && n.acc.sent == m.acc.sent + (if e.Wrote? then DataOfOne(e.frame) else [])
            && n.outb.offered == m.outb.offered + (if e.Wrote? then [e.frame] else [])
            && (m.acc.sent + Awaited(m.due) == m.acc.asked ==> n.acc.sent + Awaited(n.due) == n.acc.asked)
            && (e.Wrote? ==> e.frame.opcode < 16)
  {
    LegalLast(cfg, log);
    WriteStep(cfg, SummaryOf(log[..|log| - 1]), log[|log| - 1]);
    OutputStep(SummaryOf(log[..|log| - 1]), log[|log| - 1]);
  }

  lemma {:induction false} WrittenAsAsked(cfg: Config, log: seq<Event>)
    requires Legal(cfg, log) && AllWritten(log)
    ensures var m := SummaryOf(log);
            && DataIn(NormalAll(m.outb.offered)) == m.acc.sent
            && m.acc.sent + Awaited(m.due) == m.acc.asked
  {
    if log != [] {
      var m, e := SummaryOf(log[..|log| - 1]), log[|log| - 1];
      LegalInit(cfg, log);
      AllWrittenSplit(log);
      WrittenAsAsked(cfg, log[..|log| - 1]);
      WriteLast(cfg, log);
      if e.Wrote? {
        DataAppend(m.outb.offered, e.frame);
      }
    }
  }

  /**
    From send_text and send_binary to the peer: if every write went out in full, the text and
    binary frames that the peer decodes from the wire are, in order, exactly those asked for.
  */
  lemma RequestsOnTheWire(cfg: Config, log: seq<Event>)
    requires Legal(cfg, log) && AllWritten(log) && !SummaryOf(log).due.Ask?
    ensures DataIn(UnmaskAll(DecodeAll(SummaryOf(log).outb.wire))) == SummaryOf(log).acc.asked
  {
    OutputDecodes(cfg, log);
    WrittenAsAsked(cfg, log);
    assert SummaryOf(log).acc.sent + [] == SummaryOf(log).acc.sent;
  }

  // ------------------------------------------------------------ in order

  /** Handlers only send, the owner sends too and then closes. */
  ghost predicate SendsThenClose(cfg: Config, program: seq<Call>) {
    && AllOnlySend(cfg.scripts) && OnlySends(program)
    && |cfg.programs| == 2 && cfg.programs[0] == program && NoSends(cfg.programs[1])
  }

  predicate NoSends(calls: seq<Call>) {
    forall i :: 0 <= i < |calls| ==> !IsSend(calls[i].op)
  }

  lemma {:induction false} NothingAsked(calls: seq<Call>)
    requires NoSends(calls)
    ensures AskedIn(calls) == []
  {
    if calls != [] {
      NothingAsked(calls[1..]);
    }
  }

  /** The greetings, then the program, then what handlers send while the client is closed. */
  function InTurn(cfg: Config, program: seq<Call>, handlers: nat, programs: nat): seq<Request> {
    (if handlers > 0 then AskedIn(ScriptAt(cfg.scripts, 0)) else [])
    + (if programs > 0 then AskedIn(program) else [])
    + LaterScripts(cfg.scripts, handlers)
  }

  /** What the scripts after the first one ask for, up to the n-th. */
  function LaterScripts(scripts: seq<seq<Call>>, n: nat): seq<Request> {
    if n <= 1 then [] else LaterScripts(scripts, n - 1) + AskedIn(ScriptAt(scripts, n - 1))
  }

  /** Greetings and the program run alone; after them handlers run inside the close. */
  predicate Tidy(r: Run) {
    && r.programs <= 2
    && (r.programs == 0 ==> r.handlers <= 1)
    && (r.programs == 1 ==> r.handlers == 1)
    && (r.handlers == 0 ==> r.todo == Empty && r.programs == 0)
    && if r.programs < 2 then
         r.todo == Empty || (r.todo.below == Empty && OnlySends(r.todo.top.calls))
       else
         || r.todo == Empty
         || (r.todo.below == Empty && NoSends(r.todo.top.calls))
         || (r.todo.below.On? && r.todo.below.below == Empty
             && OnlySends(r.todo.top.calls) && NoSends(r.todo.below.top.calls))
  }

  lemma EnterTidy(r: Run, script: seq<Call>)
    requires Tidy(r) && OnlySends(script) && (r.handlers > 0 ==> Inside(r))
    ensures Tidy(Entering(r, script).(handlers := r.handlers + 1))
    ensures r.handlers > 0 ==> r.programs == 2 && r.todo.below == Empty && NoSends(r.todo.top.calls)
  {}

  lemma LaunchTidy(r: Run, script: seq<Call>)
    requires Tidy(r) && r.handlers > 0 && r.todo == Empty && r.programs < 2
    requires if r.programs == 0 then OnlySends(script) else NoSends(script)
    ensures Tidy(Entering(r, script).(programs := r.programs + 1))
  {}

  lemma RunTidy(r: Run, ok: bool)
    requires Tidy(r)
    ensures Tidy(Calling(r)) && Tidy(Returning(r, ok)) && Tidy(Ending(r))
  {}

  lemma ScriptOnlySends(scripts: seq<seq<Call>>, n: nat)
    requires AllOnlySend(scripts)
    ensures OnlySends(ScriptAt(scripts, n))
  {
    assert Asked(AboutScripts, n);
  }

  lemma TidyStep(cfg: Config, m: Summary, e: Event, program: seq<Call>)
    requires SendsThenClose(cfg, program) && Admissible(cfg, m, e) && Tidy(m.run)
    ensures Tidy(RunAfter(m.run, e))
  {
    match e
    case Entered(script) =>
      ScriptOnlySends(cfg.scripts, m.run.handlers);
      EnterTidy(m.run, script);
    case Launched(script) => LaunchTidy(m.run, script);
    case Called(_) => RunTidy(m.run, true);
    case Returned(ok) => RunTidy(m.run, ok);
    case Ended => RunTidy(m.run, true);
    case _ =>
  }

  lemma InsertLast(plan: seq<Request>, n: nat, more: seq<Request>)
    requires n == |plan|
    ensures plan[..n] + more + plan[n..] == plan + more
  {}

  lemma TurnOf(a: seq<Request>, b: seq<Request>, c: seq<Request>, d: seq<Request>)
    ensures a + b + (c + d) == a + b + c + d && [] + [] + c == c && a + [] + c == a + c && a + b + [] == a + b
  {}

  lemma EnterInTurn(cfg: Config, program: seq<Call>, m: Summary, e: Event, plan: seq<Request>)
    requires SendsThenClose(cfg, program) && Admissible(cfg, m, e) && e.Entered? && Tidy(m.run)
    requires OnPlan(m, plan) && plan == InTurn(cfg, program, m.run.handlers, m.run.programs)
    ensures PlanAfter(plan, m, e) == InTurn(cfg, program, m.run.handlers + 1, m.run.programs)
  {
    var h := m.run.handlers;
    ScriptOnlySends(cfg.scripts, h);
    EnterTidy(m.run, e.script);
    if h > 0 {
      NothingAsked(m.run.todo.top.calls);
      NothingAsked(m.run.todo.top.calls[1..]);
      TurnOf(AskedIn(ScriptAt(cfg.scripts, 0)), AskedIn(program), LaterScripts(cfg.scripts, h), AskedIn(e.script));
    }
    assert LeftInAll(m.run.todo) == [];
    InsertLast(plan, |m.acc.asked|, AskedIn(e.script));
  }

  lemma LaunchInTurn(cfg: Config, program: seq<Call>, m: Summary, e: Event, plan: seq<Request>)
    requires SendsThenClose(cfg, program) && Admissible(cfg, m, e) && e.Launched? && Tidy(m.run)
    requires OnPlan(m, plan) && plan == InTurn(cfg, program, m.run.handlers, m.run.programs)
    ensures PlanAfter(plan, m, e) == InTurn(cfg, program, m.run.handlers, m.run.programs + 1)
  {
    assert LeftInAll(m.run.todo) == [];
    InsertLast(plan, |m.acc.asked|, AskedIn(e.script));
    if m.run.programs == 1 {
      NothingAsked(e.script);
    }
  }

  /** The plan is what has started, in turn. */
  ghost predicate Planned(cfg: Config, program: seq<Call>, r: Run, plan: seq<Request>) {
    forall k :: Asked(AboutCounts, k) ==> plan == InTurn(cfg, program, r.handlers, r.programs)
  }

  lemma EnterPlanned(cfg: Config, program: seq<Call>, m: Summary, e: Event, plan: seq<Request>)
    requires SendsThenClose(cfg, program) && Admissible(cfg, m, e) && e.Entered? && Tidy(m.run)
    requires OnPlan(m, plan) && Planned(cfg, program, m.run, plan)
    ensures Planned(cfg, program, RunAfter(m.run, e), PlanAfter(plan, m, e))
  {
    assert Asked(AboutCounts, 0);
    EnterInTurn(cfg, program, m, e, plan);
    StartsWhat(m.run, e);
  }

  lemma LaunchPlanned(cfg: Config, program: seq<Call>, m: Summary, e: Event, plan: seq<Request>)
    requires SendsThenClose(cfg, program) && Admissible(cfg, m, e) && e.Launched? && Tidy(m.run)
    requires OnPlan(m, plan) && Planned(cfg, program, m.run, plan)
    ensures Planned(cfg, program, RunAfter(m.run, e), PlanAfter(plan, m, e))
  {
    assert Asked(AboutCounts, 0);
    LaunchInTurn(cfg, program, m, e, plan);
    StartsWhat(m.run, e);
  }

  lemma OtherPlanned(cfg: Config, program: seq<Call>, r: Run, e: Event, plan: seq<Request>)
    requires !e.Entered? && !e.Launched? && Planned(cfg, program, r, plan)
    ensures Planned(cfg, program, RunAfter(r, e), plan)
  {
    assert Asked(AboutCounts, 0);
    StartsWhat(r, e);
  }

  lemma StartsWhat(r: Run, e: Event)
    ensures RunAfter(r, e).handlers == if e.Entered? then r.handlers + 1 else r.handlers
    ensures RunAfter(r, e).programs == if e.Launched? then r.programs + 1 else r.programs
  {}

  lemma PlannedStep(cfg: Config, program: seq<Call>, m: Summary, e: Event, plan: seq<Request>)
    requires SendsThenClose(cfg, program) && Admissible(cfg, m, e) && !m.faulted && Tidy(m.run)
    requires OnPlan(m, plan) && Planned(cfg, program, m.run, plan)
    ensures Planned(cfg, program, RunAfter(m.run, e), PlanAfter(plan, m, e))
  {
    if e.Entered? {
      EnterPlanned(cfg, program, m, e, plan);
    } else if e.Launched? {
      LaunchPlanned(cfg, program, m, e, plan);
    } else {
      StartsNone(cfg, m, e, plan);
      OtherPlanned(cfg, program, m.run, e, plan);
    }
  }

  lemma PlannedLast(cfg: Config, program: seq<Call>, log: seq<Event>)
    requires SendsThenClose(cfg, program) && Legal(cfg, log) && log != [] && !SummaryOf(log).faulted
    requires var r := SummaryOf(log[..|log| - 1]).run;
             Tidy(r) && Planned(cfg, program, r, Plan(log[..|log| - 1]))
    ensures Tidy(SummaryOf(log).run) && Planned(cfg, program, SummaryOf(log).run, Plan(log))
  {
    var m, e := SummaryOf(log[..|log| - 1]), log[|log| - 1];
    LegalLast(cfg, log);
    LaterStep(m, e);
    RequestsFollowPlan(cfg, log[..|log| - 1]);
    TidyStep(cfg, m, e, program);
    PlannedStep(cfg, program, m, e, Plan(log[..|log| - 1]));
  }

  lemma {:induction false} AlwaysPlanned(cfg: Config, program: seq<Call>, log: seq<Event>)
    requires SendsThenClose(cfg, program) && Legal(cfg, log) && !SummaryOf(log).faulted
    ensures Tidy(SummaryOf(log).run) && Planned(cfg, program, SummaryOf(log).run, Plan(log))
  {
    if log != [] {
      LegalInit(cfg, log);
      LaterStep(SummaryOf(log[..|log| - 1]), log[|log| - 1]);
      AlwaysPlanned(cfg, program, log[..|log| - 1]);
      PlannedLast(cfg, program, log);
    }
  }

  lemma PlanInTurn(cfg: Config, program: seq<Call>, log: seq<Event>)
    requires SendsThenClose(cfg, program) && Legal(cfg, log) && !SummaryOf(log).faulted
    ensures var r := SummaryOf(log).run; Plan(log) == InTurn(cfg, program, r.handlers, r.programs)
  {
    AlwaysPlanned(cfg, program, log);
    assert Asked(AboutCounts, 0);
  }

  /**
    A client whose handlers only send, owned by a program that only sends and then closes:
    without a fault, the data frames that the peer decodes are the greetings, then those of
    the program, then those of the handlers called while the client is closed.
  */
  lemma SendsArriveInTurn(cfg: Config, program: seq<Call>, log: seq<Event>)
    requires SendsThenClose(cfg, program) && Legal(cfg, log) && !SummaryOf(log).faulted && AllWritten(log)
    requires SummaryOf(log).due.Clear? && SummaryOf(log).run.todo == Empty
    ensures var m := SummaryOf(log);
            DataIn(UnmaskAll(DecodeAll(m.outb.wire))) == InTurn(cfg, program, m.run.handlers, m.run.programs)
  {
    PlanInTurn(cfg, program, log);
    RequestsFollowPlan(cfg, log);
    RequestsOnTheWire(cfg, log);
    assert SummaryOf(log).acc.asked + [] == SummaryOf(log).acc.asked;
  }

  // ------------------------------------------------------------ in literal opcodes

  /** What a list of sends asks for, one frame for each call. */
  function SendsOf(calls: seq<Call>): seq<Request>
    requires OnlySends(calls)
  {
    seq(|calls|, i requires 0 <= i < |calls| =>
      Request(if calls[i].op.SendText? then 0x1 else 0x2, calls[i].op.payload))
  }

  lemma {:induction false} SendsAsked(calls: seq<Call>)
    requires OnlySends(calls)
    ensures AskedIn(calls) == SendsOf(calls)
  {
    if calls != [] {
      SendsAsked(calls[1..]);
      assert calls == [calls[0]] + calls[1..];
      assert SendsOf(calls) == [Asked1(calls[0].op)] + SendsOf(calls[1..]);
    }
  }

  function GreetingsOf(greetings: seq<Greeting>): seq<Request> {
    seq(|greetings|, i requires 0 <= i < |greetings| =>
      Request(if greetings[i].text then 0x1 else 0x2, greetings[i].payload))
  }

  lemma GreetingsAsked(greetings: seq<Greeting>)
    ensures AskedIn(CallsOf(greetings)) == GreetingsOf(greetings)
  {
    SendsAsked(CallsOf(greetings));
  }
}
