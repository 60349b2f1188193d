/**
 The PLC connection of plc.go: one connection at a time, reopened on demand, closed when a
 call reports that it is gone. The class carries the fields of `PLCClient`; `Perform` is
 what each of its operations does to the whole link, and the ledger of opened and closed
 connections is audited over every sequence of operations.
 */
module Client {
  import opened Options
  import opened Wire
  import opened Programs
  import opened Operations

  /** Everything the connection mutex protects, together with the network behind it. */
  datatype Link = Link(
    mem: Memory, faults: seq<Fault>, events: seq<Event>, nextConn: nat,
    conn: Option<nat>,
    requests: nat, reconnects: nat, errors: nat, recorded: nat)

  /** What a caller gets: the replies, a connection-level error, or any other error. */
  datatype Answer =
    | Success(replies: seq<Reply>)
    | ConnErr(fault: Fault) // connErrWrap
    | PlcErr(fault: Fault)

  datatype Op =
    | Do(program: Program)
    | Reset
    | InitialConnect
    | Close

  // ---- What each operation does to the link ----

  function Connect(l: Link): Link {
    if Next(l.faults) == Fine then
      l.(faults := Later(l.faults), events := l.events + [Opened(l.nextConn)],
         conn := Some(l.nextConn), nextConn := l.nextConn + 1)
    else
      l.(faults := Later(l.faults), events := l.events + [DialFailed])
  }

  /** `p.conn.Close(); p.conn = nil` */
  function Drop(l: Link): Link
    requires l.conn.Some?
  {
    l.(events := l.events + [Shut(l.conn.value)], conn := None)
  }

  function After(l: Link, s: Session): Link {
    l.(mem := s.mem, faults := s.faults, events := s.events)
  }

  /** The part of `do` that runs with a connection in hand. */
  function Admitted(l: Link, p: Program): (Link, Answer)
    requires l.conn.Some?
  {
    var s := RunProgram(l.conn.value, p, Start(l.mem, l.faults, l.events));
    Settle(After(l.(requests := l.requests + 1, recorded := l.recorded + 1), s), s.outcome, s.replies)
  }

  function Settle(l: Link, outcome: Fault, replies: seq<Reply>): (Link, Answer)
    requires l.conn.Some?
  {
    match outcome
    case Fine => (l, Success(replies))
    case Refused => (l.(errors := l.errors + 1), PlcErr(Refused))
    case Lost => (Drop(l.(errors := l.errors + 1)), ConnErr(Lost))
  }

  /** The part of `doReset` that runs with a connection in hand: the connection never survives. */
  function ResetAdmitted(l: Link): (Link, Answer)
    requires l.conn.Some?
  {
    var s := Transmit(l.conn.value, Remote(RemoteReset), Start(l.mem, l.faults, l.events));
    SettleReset(Drop(After(l.(requests := l.requests + 1, recorded := l.recorded + 1), s)), s.outcome)
  }

  function SettleReset(l: Link, outcome: Fault): (Link, Answer) {
    match outcome
    case Fine => (l, Success([]))
    case Refused => (l.(errors := l.errors + 1), PlcErr(Refused))
    case Lost => (l.(errors := l.errors + 1), ConnErr(Lost))
  }

  function Admit(l: Link, op: Op): (Link, Answer)
    requires l.conn.Some? && (op.Do? || op.Reset?)
  {
    if op.Do? then Admitted(l, op.program) else ResetAdmitted(l)
  }

  function Perform(l: Link, op: Op): (Link, Answer) {
    match op
    case InitialConnect => (Connect(l), Success([]))
    case Close => (if l.conn.Some? then Drop(l) else l, Success([]))
    case _ =>
      var l' := Ready(l);
      if l'.conn.None? then (l'.(errors := l'.errors + 1), ConnErr(Next(l.faults))) else Admit(l', op)
  }

  /** A call that finds no connection first tries to open one. */
  function Ready(l: Link): Link {
    if l.conn.Some? then l else Connect(l.(reconnects := l.reconnects + 1))
  }

  function PerformAll(l: Link, ops: seq<Op>): Link {
    if ops == [] then l
    else Perform(PerformAll(l, ops[..|ops| - 1]), ops[|ops| - 1]).0
  }

  function Disconnected(mem: Memory, faults: seq<Fault>): Link {
    Link(mem, faults, [], 0, None, 0, 0, 0, 0)
  }

  // ---- The class ----

  class PlcClient {
    const net: Network
    var conn: Option<nat>
    var requests: nat
    var reconnects: nat
    var plcErrors: nat
    var recorded: nat

    constructor (net: Network)
      requires net.events == [] && net.nextConn == 0
      ensures this.net == net && View() == Disconnected(net.mem, net.faults)
    {
      this.net := net;
      conn, requests, reconnects, plcErrors, recorded := None, 0, 0, 0, 0;
    }

    ghost function View(): Link
      reads this, net
    {
      Link(net.mem, net.faults, net.events, net.nextConn, conn, requests, reconnects, plcErrors, recorded)
    }

    method ConnectNow() returns (ok: bool)
      modifies this, net
      ensures View() == Connect(old(View())) && ok == (Next(old(net.faults)) == Fine)
    {
      var c;
      ok, c := net.Dial();
      if ok {
        conn := Some(c);
      }
    }

    method Reconnect() returns (ok: bool)
      modifies this, net
      ensures View() == Connect(old(View()).(reconnects := old(reconnects) + 1))
      ensures ok == (Next(old(net.faults)) == Fine)
    {
      reconnects := reconnects + 1;
      ok := ConnectNow();
    }

    method InitialConnect()
      modifies this, net
      ensures View() == Perform(old(View()), Op.InitialConnect).0
    {
      var ok := ConnectNow();
    }

    /** How both `do` and `doReset` begin. */
    method EnsureConnected() returns (ok: bool, failed: Fault)
      modifies this, net
      ensures ok == Ready(old(View())).conn.Some? && (!ok ==> failed == Next(old(net.faults)))
      ensures var l := Ready(old(View())); View() == if ok then l else l.(errors := l.errors + 1)
    {
      ok, failed := true, Next(net.faults);
      if conn.None? {
        ok := Reconnect();
        if !ok {
          plcErrors := plcErrors + 1;
        }
      }
    }

    /** `do`, with the function it is given as a program. */
    method Do(p: Program) returns (answer: Answer)
      modifies this, net
      ensures (View(), answer) == Perform(old(View()), Op.Do(p))
    {
      var ok, failed := EnsureConnected();
      if !ok {
        return ConnErr(failed);
      }
      requests := requests + 1;
      var fault, replies := RunOn(conn.value, p);
      recorded := recorded + 1;
      if fault == Fine {
        return Success(replies);
      }
      plcErrors := plcErrors + 1;
      if fault == Lost {
        net.Shutdown(conn.value);
        conn := None;
        return ConnErr(fault);
      }
      return PlcErr(fault);
    }

    /** `fn(p.conn)`: the calls of a program, in order, until one fails. */
    method RunOn(c: nat, p: Program) returns (fault: Fault, replies: seq<Reply>)
      modifies net`mem, net`faults, net`events
      ensures var s := RunProgram(c, p, old(net.Fresh()));
              net.At(s) && fault == s.outcome && (fault == Fine ==> replies == s.replies)
    {
      fault, replies := Fine, [];
      ghost var s := net.Fresh();
      assert p[0..] == p;
      for i := 0 to |p|
        invariant fault == Fine == s.outcome && net.At(s) && s.replies == replies
        invariant RunProgram(c, p[i..], s) == RunProgram(c, p, old(net.Fresh()))
      {
        StepAt(c, p, i, s);
        s := RunInstr(c, p[i], s);
        if p[i].Issue? {
          var reply;
          fault, reply := net.Send(c, p[i].call);
          if fault == Fine {
            replies := replies + [reply];
          }
        } else {
          fault := ModifyRegister(net, c, p[i].at, p[i].edits);
        }
        if fault != Fine {
          return;
        }
      }
      assert p[|p|..] == [];
    }

    method DoReset() returns (answer: Answer)
      modifies this, net
      ensures (View(), answer) == Perform(old(View()), Op.Reset)
    {
      var ok, failed := EnsureConnected();
      if !ok {
        return ConnErr(failed);
      }
      requests := requests + 1;
      var fault, reply := net.Send(conn.value, Remote(RemoteReset));
      recorded := recorded + 1;
      net.Shutdown(conn.value);
      conn := None;
      if fault == Lost {
        plcErrors := plcErrors + 1;
        return ConnErr(fault);
      }
      if fault != Fine {
        plcErrors := plcErrors + 1;
        return PlcErr(fault);
      }
      return Success([]);
    }

    method CloseNow()
      modifies this, net
      ensures View() == Perform(old(View()), Op.Close).0
    {
      if conn.Some? {
        net.Shutdown(conn.value);
        conn := None;
      }
    }
  }

  // ---- The ledger of connections ----

  datatype Ledger = Ledger(live: Option<nat>, dialed: nat)

  /**
   Follows the record of the network. `None` means a connection was opened while another
   was open, used while it was not open, or closed while it was not open.
   */
  function Audit(events: seq<Event>): Option<Ledger> {
    if events == [] then Some(Ledger(None, 0))
    else
      var before := Audit(events[..|events| - 1]);
      if before.None? then None else AuditOne(before.value, events[|events| - 1])
  }

  function AuditOne(g: Ledger, e: Event): Option<Ledger> {
    match e
    case Opened(c) => if g.live == None && c == g.dialed then Some(Ledger(Some(c), c + 1)) else None
    case DialFailed => Some(g)
    case Sent(c, _, _) => if g.live == Some(c) then Some(g) else None
    case Shut(c) => if g.live == Some(c) then Some(g.(live := None)) else None
  }

  ghost predicate Sound(l: Link) {
    Audit(l.events) == Some(Ledger(l.conn, l.nextConn))
  }

  lemma AuditSnoc(events: seq<Event>, e: Event)
    ensures Audit(events + [e]) == if Audit(events).None? then None else AuditOne(Audit(events).value, e)
  {
    assert (events + [e])[..|events|] == events;
  }

  /** Device memory as the acknowledged calls alone would have left it. */
  function Acknowledged(mem: Memory, events: seq<Event>): Memory {
    if events == [] then mem
    else
      var before := Acknowledged(mem, events[..|events| - 1]);
      var e := events[|events| - 1];
      if e.Sent? && e.fault == Fine then Apply(before, e.call) else before
  }

  lemma AcknowledgedSnoc(mem: Memory, events: seq<Event>, e: Event)
    ensures Acknowledged(mem, events + [e]) ==
            if e.Sent? && e.fault == Fine then Apply(Acknowledged(mem, events), e.call) else Acknowledged(mem, events)
  {
    assert (events + [e])[..|events|] == events;
  }

  ghost predicate Consistent(mem: Memory, l: Link) {
    Sound(l) && l.mem == Acknowledged(mem, l.events)
  }

  lemma TransmitConsistent(mem: Memory, l: Link, c: Call, s: Session)
    requires l.conn.Some? && Consistent(mem, After(l, s))
    ensures Consistent(mem, After(l, Transmit(l.conn.value, c, s)))
  {
    if s.outcome == Fine {
      var e := Sent(l.conn.value, c, Next(s.faults));
      AuditSnoc(s.events, e);
      AcknowledgedSnoc(mem, s.events, e);
    }
  }

  lemma {:induction false} ProgramConsistent(mem: Memory, l: Link, p: Program, s: Session)
    requires l.conn.Some? && Consistent(mem, After(l, s))
    ensures Consistent(mem, After(l, RunProgram(l.conn.value, p, s)))
    decreases |p|
  {
    if p != [] {
      var c := l.conn.value;
      match p[0] {
        case Issue(call) =>
          TransmitConsistent(mem, l, call, s);
        case Modify(at, edits) =>
          var w := EditAll(s.mem.words[at], edits);
          TransmitConsistent(mem, l, ReadWords(at, 1), s);
          TransmitConsistent(mem, l, WriteWords(at, [w]), Transmit(c, ReadWords(at, 1), s));
      }
      ProgramConsistent(mem, l, p[1..], RunInstr(c, p[0], s));
    }
  }

  lemma DropConsistent(mem: Memory, l: Link)
    requires l.conn.Some? && Consistent(mem, l)
    ensures Consistent(mem, Drop(l))
  {
    AuditSnoc(l.events, Shut(l.conn.value));
    AcknowledgedSnoc(mem, l.events, Shut(l.conn.value));
  }

  lemma ConnectSound(l: Link)
    requires Sound(l)
    ensures Sound(Connect(l)) <==> l.conn.None? || Next(l.faults) != Fine
  {
    AuditSnoc(l.events, if Next(l.faults) == Fine then Opened(l.nextConn) else DialFailed);
  }

  lemma ConnectMemory(mem: Memory, l: Link)
    ensures Acknowledged(mem, Connect(l).events) == Acknowledged(mem, l.events)
  {
    AcknowledgedSnoc(mem, l.events, if Next(l.faults) == Fine then Opened(l.nextConn) else DialFailed);
  }

  // Connecting keeps the ledger balanced exactly when nothing is open or the dial fails:
  // `connect` overwrites the connection without closing the one it had.
  lemma ConnectConsistent(mem: Memory, l: Link)
    requires Consistent(mem, l)
    ensures Consistent(mem, Connect(l)) <==> l.conn.None? || Next(l.faults) != Fine
  {
    ConnectSound(l);
    ConnectMemory(mem, l);
    assert Connect(l).mem == l.mem;
  }

  lemma AdmitConsistent(mem: Memory, l: Link, op: Op)
    requires l.conn.Some? && (op.Do? || op.Reset?) && Consistent(mem, l)
    ensures Consistent(mem, Admit(l, op).0)
  {
    var s := Start(l.mem, l.faults, l.events);
    var l' := l.(requests := l.requests + 1, recorded := l.recorded + 1);
    match op {
      case Do(p) =>
        ProgramConsistent(mem, l', p, s);
        var s' := RunProgram(l.conn.value, p, s);
        if s'.outcome == Lost {
          DropConsistent(mem, After(l', s').(errors := l.errors + 1));
        }
      case Reset =>
        TransmitConsistent(mem, l', Remote(RemoteReset), s);
        DropConsistent(mem, After(l', Transmit(l.conn.value, Remote(RemoteReset), s)));
    }
  }

  // Every operation keeps the ledger balanced and the memory explained by acknowledged calls;
  // an initial connect does so exactly when it has nothing to overwrite or fails.
  lemma PerformConsistent(mem: Memory, l: Link, op: Op)
    requires Consistent(mem, l)
    ensures Consistent(mem, Perform(l, op).0) <==> (op.InitialConnect? ==> l.conn.None? || Next(l.faults) != Fine)
  {
    match op {
      case InitialConnect =>
        ConnectConsistent(mem, l);
      case Close =>
        if l.conn.Some? {
          DropConsistent(mem, l);
        }
      case _ =>
        if l.conn.None? {
          ConnectConsistent(mem, l.(reconnects := l.reconnects + 1));
        }
        if Ready(l).conn.Some? {
          AdmitConsistent(mem, Ready(l), op);
        }
    }
  }

  /** The order main.go follows: one initial connect, before anything else. */
  ghost predicate StartsOnce(ops: seq<Op>) {
    forall i :: 0 < i < |ops| ==> !ops[i].InitialConnect?
  }

  lemma {:induction false} RunsConsistent(mem: Memory, faults: seq<Fault>, ops: seq<Op>)
    requires StartsOnce(ops)
    ensures Consistent(mem, PerformAll(Disconnected(mem, faults), ops))
  {
    if ops != [] {
      var n := |ops| - 1;
      RunsConsistent(mem, faults, ops[..n]);
      PerformConsistent(mem, PerformAll(Disconnected(mem, faults), ops[..n]), ops[n]);
    }
  }

  // ---- What a balanced ledger means ----

  function Opens(events: seq<Event>): nat {
    if events == [] then 0
    else Opens(events[..|events| - 1]) + if events[|events| - 1].Opened? then 1 else 0
  }

  function Shuts(events: seq<Event>): nat {
    if events == [] then 0
    else Shuts(events[..|events| - 1]) + if events[|events| - 1].Shut? then 1 else 0
  }

  lemma {:induction false} LedgerCounts(events: seq<Event>)
    requires Audit(events).Some?
    ensures var g := Audit(events).value;
            && Opens(events) == g.dialed
            && Opens(events) - Shuts(events) == (if g.live.Some? then 1 else 0)
            && (g.live.Some? ==> g.live.value < g.dialed)
  {
    if events != [] {
      LedgerCounts(events[..|events| - 1]);
    }
  }

  // Once a connection is closed it is never used, closed or opened again.
  lemma {:induction false} ClosedForGood(events: seq<Event>, i: nat, j: nat)
    requires Audit(events).Some? && i < j < |events| && events[i].Shut?
    ensures var c := events[i].conn;
            events[j] != Shut(c) && events[j] != Opened(c) && !(events[j].Sent? && events[j].conn == c)
    decreases |events|
  {
    var n := |events| - 1;
    if j < n {
      ClosedForGood(events[..n], i, j);
    } else {
      ShutIsBelow(events[..n], i);
    }
  }

  lemma {:induction false} ShutIsBelow(events: seq<Event>, i: nat)
    requires Audit(events).Some? && i < |events| && events[i].Shut?
    ensures events[i].conn < Audit(events).value.dialed && Audit(events).value.live != Some(events[i].conn)
    decreases |events|
  {
    var n := |events| - 1;
    LedgerCounts(events[..n]);
    if i < n {
      ShutIsBelow(events[..n], i);
    }
  }

  // ---- The link after an answer ----

  // A call leaves the client disconnected exactly when it answers a connection-level error; after
  // any other answer an open connection is still the same one. A reset never leaves one.
  lemma ConnectionAfter(l: Link, op: Op)
    ensures op.Do? ==> (Perform(l, op).0.conn.None? <==> Perform(l, op).1.ConnErr?)
    ensures op.Do? && l.conn.Some? && !Perform(l, op).1.ConnErr? ==> Perform(l, op).0.conn == l.conn
    ensures op.Reset? || op.Close? ==> Perform(l, op).0.conn.None?
  {
  }

  // A connection is dialed exactly when a call finds none, and a call that cannot dial sends nothing.
  lemma DialedOnDemand(l: Link, op: Op)
    requires op.Do? || op.Reset?
    ensures Perform(l, op).0.reconnects == l.reconnects + if l.conn.None? then 1 else 0
    ensures l.conn.None? && Next(l.faults) != Fine ==>
      && Perform(l, op).0.events == l.events + [DialFailed] && Perform(l, op).0.mem == l.mem
      && Perform(l, op).1 == ConnErr(Next(l.faults))
  {
  }

  // A reset sends the one reset command and closes the connection, however the command ends; its
  // answer says how it ended.
  lemma ResetSends(l: Link, c: nat)
    requires l.conn == Some(c)
    ensures var (l', a) := Perform(l, Reset);
            && l'.events == l.events + [Sent(c, Remote(RemoteReset), Next(l.faults))] + [Shut(c)]
            && match Next(l.faults)
               case Fine => a == Success([])
               case Refused => a == PlcErr(Refused)
               case Lost => a == ConnErr(Lost)
  {
  }

  // The answer of a call on an open connection says how its calls ended: success when all were fine,
  // otherwise the fault of the last one, a connection error exactly when the connection was lost.
  lemma AnswerTells(l: Link, p: Program, c: nat) returns (sent: seq<Event>)
    requires l.conn == Some(c)
    ensures SentUntilFailure(sent, c, CallCount(p))
    ensures var (l', a) := Perform(l, Op.Do(p));
            && l'.events == l.events + sent + (if a.ConnErr? then [Shut(c)] else [])
            && match LastFault(sent)
               case Fine => a.Success?
               case Refused => a == PlcErr(Refused)
               case Lost => a == ConnErr(Lost)
  {
    sent := StopsAtFailure(c, p, Start(l.mem, l.faults, l.events));
  }

  function Failures(answers: seq<Answer>): nat {
    if answers == [] then 0
    else Failures(answers[..|answers| - 1]) + if answers[|answers| - 1].Success? then 0 else 1
  }

  function AnswersOf(l: Link, ops: seq<Op>): seq<Answer> {
    if ops == [] then []
    else
      var n := |ops| - 1;
      AnswersOf(l, ops[..n]) + [Perform(PerformAll(l, ops[..n]), ops[n]).1]
  }

  function DialFailures(events: seq<Event>): nat {
    if events == [] then 0
    else DialFailures(events[..|events| - 1]) + if events[|events| - 1].DialFailed? then 1 else 0
  }

  function Calls(ops: seq<Op>): nat {
    if ops == [] then 0
    else Calls(ops[..|ops| - 1]) + if ops[|ops| - 1].Do? || ops[|ops| - 1].Reset? then 1 else 0
  }

  /** Every attempt to open a connection. */
  function Dials(events: seq<Event>): nat {
    Opens(events) + DialFailures(events)
  }

  lemma TransmitDials(conn: nat, c: Call, s: Session)
    ensures DialFailures(Transmit(conn, c, s).events) == DialFailures(s.events)
    ensures Dials(Transmit(conn, c, s).events) == Dials(s.events)
  {
    if s.outcome == Fine {
      var e := Sent(conn, c, Next(s.faults));
      assert (s.events + [e])[..|s.events|] == s.events;
    }
  }

  lemma {:induction false} ProgramDials(conn: nat, p: Program, s: Session)
    ensures DialFailures(RunProgram(conn, p, s).events) == DialFailures(s.events)
    ensures Dials(RunProgram(conn, p, s).events) == Dials(s.events)
    decreases |p|
  {
    if p != [] {
      match p[0] {
        case Issue(call) =>
          TransmitDials(conn, call, s);
        case Modify(at, edits) =>
          TransmitDials(conn, ReadWords(at, 1), s);
          TransmitDials(conn, WriteWords(at, [EditAll(s.mem.words[at], edits)]), Transmit(conn, ReadWords(at, 1), s));
      }
      ProgramDials(conn, p[1..], RunInstr(conn, p[0], s));
    }
  }

  lemma ReadyCounts(l: Link)
    ensures var l' := Ready(l);
            && l'.errors == l.errors && l'.recorded == l.recorded && l'.requests == l.requests
            && DialFailures(l'.events) == DialFailures(l.events) + (if l'.conn.Some? then 0 else 1)
            && Dials(l'.events) - l'.reconnects == Dials(l.events) - l.reconnects
  {
    if l.conn.None? {
      var e := if Next(l.faults) == Fine then Opened(l.nextConn) else DialFailed;
      assert (l.events + [e])[..|l.events|] == l.events;
    }
  }

  /** From `l` to `l'`: one more call admitted and timed, no dial, and an error counted if it failed. */
  ghost predicate AdmittedOne(l: Link, l': Link, success: bool) {
    && l'.errors == l.errors + (if success then 0 else 1)
    && l'.recorded == l.recorded + 1 && l'.requests == l.requests + 1 && l'.reconnects == l.reconnects
    && DialFailures(l'.events) == DialFailures(l.events) && Dials(l'.events) == Dials(l.events)
  }

  lemma ShutIsNoDial(events: seq<Event>, c: nat)
    ensures DialFailures(events + [Shut(c)]) == DialFailures(events) && Dials(events + [Shut(c)]) == Dials(events)
  {
    assert (events + [Shut(c)])[..|events|] == events;
  }

  lemma DoCounts(l: Link, p: Program)
    requires l.conn.Some?
    ensures AdmittedOne(l, Admitted(l, p).0, Admitted(l, p).1.Success?)
  {
    var s := Start(l.mem, l.faults, l.events);
    ProgramDials(l.conn.value, p, s);
    ShutIsNoDial(RunProgram(l.conn.value, p, s).events, l.conn.value);
  }

  lemma ResetCounts(l: Link)
    requires l.conn.Some?
    ensures AdmittedOne(l, ResetAdmitted(l).0, ResetAdmitted(l).1.Success?)
  {
    var s := Start(l.mem, l.faults, l.events);
    TransmitDials(l.conn.value, Remote(RemoteReset), s);
    ShutIsNoDial(Transmit(l.conn.value, Remote(RemoteReset), s).events, l.conn.value);
  }

  lemma AdmitCounts(l: Link, op: Op)
    requires l.conn.Some? && (op.Do? || op.Reset?)
    ensures AdmittedOne(l, Admit(l, op).0, Admit(l, op).1.Success?)
  {
    if op.Do? {
      DoCounts(l, op.program);
    } else {
      ResetCounts(l);
    }
  }

  // One operation: it is either admitted or stopped by a failed dial, and an error is counted once.
  lemma PerformCounts(l: Link, op: Op)
    ensures var l', a := Perform(l, op).0, Perform(l, op).1;
            && l'.errors == l.errors + (if a.Success? then 0 else 1)
            && l'.recorded - l'.requests == l.recorded - l.requests
            && (op.InitialConnect? || op.Close? ==> l'.requests == l.requests)
            && Dials(l'.events) - l'.reconnects
               == Dials(l.events) - l.reconnects + (if op.InitialConnect? then 1 else 0)
            && (!op.InitialConnect? ==>
                  l'.requests + DialFailures(l'.events)
                  == l.requests + DialFailures(l.events) + if op.Close? then 0 else 1)
  {
    if op.Close? {
      if l.conn.Some? {
        assert Drop(l).events[..|l.events|] == l.events;
      }
    } else if op.InitialConnect? {
      InitialDial(l);
    } else {
      ReadyCounts(l);
      if Ready(l).conn.Some? {
        AdmitCounts(Ready(l), op);
      }
    }
  }

  // Over every sequence of operations that starts with the initial connect: each call is admitted or
  // stopped by a failed dial (the initial dial aside), every admitted call is timed, and every dial
  // but the initial one is counted as a reconnect.
  lemma {:induction false} RequestsAddUp(mem: Memory, faults: seq<Fault>, ops: seq<Op>)
    requires StartsOnce(ops) && (ops != [] ==> ops[0].InitialConnect?)
    ensures var l := PerformAll(Disconnected(mem, faults), ops);
            && l.requests + DialFailures(l.events) == Calls(ops) + (if ops != [] && Next(faults) != Fine then 1 else 0)
            && l.recorded == l.requests
            && Dials(l.events) == l.reconnects + (if ops != [] then 1 else 0)
  {
    if ops != [] {
      var n := |ops| - 1;
      var l := PerformAll(Disconnected(mem, faults), ops[..n]);
      RequestsAddUp(mem, faults, ops[..n]);
      PerformCounts(l, ops[n]);
      if n == 0 {
        assert ops[..n] == [];
        InitialDial(l);
      }
    }
  }

  lemma InitialDial(l: Link)
    ensures DialFailures(Connect(l).events) == DialFailures(l.events) + if Next(l.faults) == Fine then 0 else 1
    ensures Dials(Connect(l).events) == Dials(l.events) + 1
  {
    var e := if Next(l.faults) == Fine then Opened(l.nextConn) else DialFailed;
    assert (l.events + [e])[..|l.events|] == l.events;
  }

  // The error counter is the number of answers that are not successes.
  lemma {:induction false} ErrorsAddUp(l: Link, ops: seq<Op>)
    ensures PerformAll(l, ops).errors == l.errors + Failures(AnswersOf(l, ops))
  {
    if ops != [] {
      var n := |ops| - 1;
      ErrorsAddUp(l, ops[..n]);
      PerformCounts(PerformAll(l, ops[..n]), ops[n]);
      var a := Perform(PerformAll(l, ops[..n]), ops[n]).1;
      assert AnswersOf(l, ops) == AnswersOf(l, ops[..n]) + [a];
      assert (AnswersOf(l, ops[..n]) + [a])[..|AnswersOf(l, ops[..n])|] == AnswersOf(l, ops[..n]);
    }
  }
}
