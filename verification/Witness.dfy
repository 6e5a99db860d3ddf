/** Concrete runs. In one a service call completes, from the first connection to the returned
    result, so the hypotheses of the results in EndToEnd can be met; in the others the relay
    departs from its comments, or an agent ends by a panic. */
module Witness {
  import opened Prelude
  import opened CapBuffers
  import opened Exec
  import opened Routing
  import opened System
  import AgentLoop
  import AgentPanics
  import Link

  const SID := "svc"
  const EID := "e"
  const ASK := Request(["true"], None, 0, 0)

  function F(): Frame { ServiceFrame(SID, EID, ASK) }
  function Ack(): Frame { AckFrame(F()) }
  function Bye(): Frame { ExitFrame(F(), 0, false) }

  /* ---- The agent's part ---- */

  function Tag(f: Frame): AgentLoop.Tagged { AgentLoop.Tagged(f, AgentLoop.FromExec(0)) }

  function Serving(p: AgentLoop.Phase, sem: nat, out: seq<AgentLoop.Tagged>, history: seq<AgentLoop.Tagged>,
                   r: AgentLoop.ReaderPc): AgentLoop.State {
    AgentLoop.State([AgentLoop.Job(F(), p, EMPTY, EMPTY, [], [], false)], map[EID := 0], sem, out, r, {}, [F()],
                    history, None)
  }

  lemma SameAgent(s: AgentLoop.State, t: AgentLoop.State)
    requires s.jobs == t.jobs && s.cancels == t.cancels && s.sem == t.sem && s.out == t.out && s.reader == t.reader
    requires s.ptys == t.ptys && s.received == t.received && s.history == t.history && s.crash == t.crash
    ensures s == t
  {
  }

  function G(n: nat): AgentLoop.State {
    var a, b, oc := Tag(Ack()), Tag(Bye()), Ran([], [], 0);
    if n == 0 then AgentLoop.INIT
    else if n == 1 then Serving(AgentLoop.Registered, 0, [], [], AgentLoop.AtSemaphore(0))
    else if n == 2 then Serving(AgentLoop.Spawned, 1, [], [], AgentLoop.Idle)
    else if n == 3 then Serving(AgentLoop.Live(false), 1, [], [], AgentLoop.Idle)
    else if n == 4 then Serving(AgentLoop.Live(true), 1, [a], [a], AgentLoop.Idle)
    else if n == 5 then Serving(AgentLoop.Flushing([Bye()], oc), 1, [a], [a], AgentLoop.Idle)
    else if n == 6 then Serving(AgentLoop.Flushing([], oc), 1, [a, b], [a, b], AgentLoop.Idle)
    else if n == 7 then Serving(AgentLoop.Flushing([], oc), 1, [b], [a, b], AgentLoop.Idle)
    else Serving(AgentLoop.Flushing([], oc), 1, [], [a, b], AgentLoop.Idle)
  }

  function Act(n: nat): AgentLoop.Action {
    if n == 0 then AgentLoop.Receive(F(), false)
    else if n == 1 then AgentLoop.TrySemaphore
    else if n == 2 then AgentLoop.Start(0, None)
    else if n == 3 then AgentLoop.SendAck(0)
    else if n == 4 then AgentLoop.End(0, 0)
    else if n == 5 then AgentLoop.SendNext(0)
    else AgentLoop.Drain
  }

  lemma AgentStarts(n: nat)
    requires n < 4
    ensures AgentLoop.Next(G(n), Act(n)) == Some(G(n + 1))
  {
    SameAgent(AgentLoop.Next(G(n), Act(n)).value, G(n + 1));
  }

  lemma AgentDrains(n: nat)
    requires 6 <= n < 8
    ensures AgentLoop.Next(G(n), Act(n)) == Some(G(n + 1))
  {
    hide F;
    SameAgent(AgentLoop.Next(G(n), Act(n)).value, G(n + 1));
  }

  lemma AgentEnds(n: nat)
    requires 4 <= n < 6
    ensures AgentLoop.Next(G(n), Act(n)) == Some(G(n + 1))
  {
    hide Write, CapOf, AgentLoop.OnFrame;
    assert Tail(F(), EMPTY, EMPTY, 0) == [Bye()];
    assert [Bye()][1..] == [];
    SameAgent(AgentLoop.Next(G(n), Act(n)).value, G(n + 1));
  }

  /* ---- The whole ---- */

  function Connected(outbound: seq<Frame>, down: seq<Frame>, g: nat, up: seq<Frame>, sent: seq<Frame>,
                     routed: seq<Frame>): Link.Conn {
    Link.Conn("d", 32, true, 0, outbound, down, G(g), up, sent, routed)
  }

  function Call(queue: seq<Frame>, taken: seq<Frame>, stage: Stage, ending: Option<Ending>): Session {
    Session(SID, 0, Some(F()), Box(queue, false, 0), taken, stage, ending, false, 0, Some(ASK))
  }

  function With(c: Link.Conn, ss: Session, read: seq<Incoming>): State {
    State([c], map["d" := 0], [ss], map[SID := 0], map[SID := Owner("d", true)], multiset{}, multiset{}, multiset{},
          false, read)
  }

  const RESULT := ExecRes(0, [], [], false)

  /** The connection while the call waits. */
  function Wire(n: nat): Link.Conn {
    var f, a, b := F(), Ack(), Bye();
    if n <= 4 then Connected([], [f], 0, [], [f], [])
    else if n <= 10 then Connected([], [], n - 4, [], [f], [])
    else if n == 11 then Connected([], [], 7, [a], [f], [])
    else Connected([], [], 8, [a, b], [f], [])
  }

  function S(n: nat): State {
    var f, a, b, waiting := F(), Ack(), Bye(), Call([], [], Live, None);
    var got := [Incoming(0, a), Incoming(0, b)];
    if n == 0 then INIT
    else if n == 1 then INIT.(conns := [Connected([], [], 0, [], [], [])], reg := map["d" := 0])
    else if n == 2 then With(Connected([], [], 0, [], [], []), Call([], [], Starting, None), [])
    else if n == 3 then With(Connected([f], [], 0, [], [f], []), waiting, [])
    else if n <= 12 then With(Wire(n), waiting, [])
    else if n == 13 then With(Connected([], [], 8, [b], [f], [a]), Call([a], [], Live, None), [Incoming(0, a)])
    else if n == 14 then With(Connected([], [], 8, [], [f], [a, b]), Call([a, b], [], Live, None), got)
    else if n == 15 then With(Connected([], [], 8, [], [f], [a, b]), Call([b], [a], Live, None), got)
    else With(Connected([], [], 8, [], [f], [a, b]), Call([], [a, b], Ended, Some(Exited(RESULT))), got)
  }

  function Does(n: nat): Action {
    if n == 0 then Connect("d", 32)
    else if n == 1 then ServiceStart(0, SID, EID, ASK)
    else if n == 2 then ServiceSend(0)
    else if n == 3 then OnLink(0, Link.Pump)
    else if n < 12 then OnLink(0, Link.AgentStep(Act(n - 4)))
    else if n < 14 then Route(0)
    else ServiceTake(0)
  }

  lemma Same(s: State, t: State)
    requires s.conns == t.conns && s.reg == t.reg && s.sessions == t.sessions && s.router == t.router
    requires s.owner == t.owner && s.opens == t.opens && s.attaches == t.attaches && s.closes == t.closes
             && s.crashed == t.crashed
    requires s.read == t.read
    ensures s == t
  {
  }

  lemma SameConn(c: Link.Conn, d: Link.Conn)
    requires c.device == d.device && c.bufSize == d.bufSize && c.open == d.open && c.closes == d.closes
             && c.outbound == d.outbound && c.down == d.down
    requires c.agent == d.agent && c.up == d.up && c.sentDown == d.sentDown && c.routed == d.routed
    ensures c == d
  {
  }

  lemma SameSession(x: Session, y: Session)
    requires x.sid == y.sid && x.conn == y.conn && x.request == y.request && x.taken == y.taken && x.stage == y.stage
    requires x.ending == y.ending && x.reading == y.reading && x.since == y.since && x.call == y.call
    requires x.box.queue == y.box.queue && x.box.closed == y.box.closed && x.box.closes == y.box.closes
    ensures x == y
  {
  }

  lemma Connects()
    ensures Next(S(0), Does(0)) == Some(S(1))
  {
    Same(Next(S(0), Does(0)).value, S(1));
  }

  lemma Calls()
    ensures Next(S(1), Does(1)) == Some(S(2))
  {
    hide G, F;
    assert F() == ServiceFrame(SID, EID, ASK) by { TheRequest(); }
    Same(Next(S(1), Does(1)).value, S(2));
  }

  lemma TheRequest()
    ensures F() == ServiceFrame(SID, EID, ASK) && AgentLoop.ValidExec(F())
  {
  }

  lemma Sends()
    ensures Next(S(2), Does(2)) == Some(S(3))
  {
    hide G, F;
    SameConn(Next(S(2), Does(2)).value.conns[0], S(3).conns[0]);
    Same(Next(S(2), Does(2)).value, S(3));
  }

  lemma Pumps()
    ensures Next(S(3), Does(3)) == Some(S(4))
  {
    hide G, F;
    SameConn(Next(S(3), Does(3)).value.conns[0], S(4).conns[0]);
    Same(Next(S(3), Does(3)).value, S(4));
  }

  lemma OneLink(s: State, la: Link.LinkAction, d: Link.Conn)
    requires !s.crashed && |s.conns| == 1 && Link.Next(s.conns[0], la) == Some(d) && (la.Pump? || la.AgentStep?)
    ensures Next(s, OnLink(0, la)) == Some(s.(conns := [d]))
  {
    hide Link.Next;
    assert s.conns[0 := d] == [d];
  }

  /** A step of the agent, on the wires. */
  lemma AgentSteps(n: nat)
    requires n < 8
    ensures Next(S(n + 4), Does(n + 4)) == Some(S(n + 5))
  {
    hide Next, S, AgentLoop.Next, Act, Link.AgentNext;
    OnlyTheLinkMoves(n);
    OnTheWire(n);
    OneLink(S(n + 4), Link.AgentStep(Act(n)), S(n + 5).conns[0]);
  }

  lemma OnlyTheLinkMoves(n: nat)
    requires n < 8
    ensures !S(n + 4).crashed && |S(n + 4).conns| == 1 && |S(n + 5).conns| == 1
    ensures S(n + 5) == S(n + 4).(conns := [S(n + 5).conns[0]])
  {
    hide With, Wire;
    SameButLink(Wire(n + 4), Wire(n + 5), Call([], [], Live, None));
  }

  lemma SameButLink(c: Link.Conn, d: Link.Conn, ss: Session)
    ensures var s := With(c, ss, []);
            !s.crashed && s.conns == [c] && With(d, ss, []).conns == [d] && With(d, ss, []) == s.(conns := [d])
  {
  }

  lemma ActFacts(n: nat)
    requires n < 8
    ensures Act(n).Receive? <==> n == 0
    ensures n == 0 ==> Act(n).f == F()
    ensures Act(n).Drain? <==> n >= 6
    ensures n >= 6 ==> G(n).out != [] && G(n).out[0].frame == if n == 6 then Ack() else Bye()
  {
  }

  lemma OnTheWire(n: nat)
    requires n < 8
    ensures Link.AgentNext(S(n + 4).conns[0], Act(n)) == Some(S(n + 5).conns[0])
  {
    hide AgentLoop.Next, F, G, Act, Ack, Bye;
    if n < 4 { AgentStarts(n); } else if n < 6 { AgentEnds(n); } else { AgentDrains(n); }
    ActFacts(n);
    SameConn(Link.AgentNext(S(n + 4).conns[0], Act(n)).value, S(n + 5).conns[0]);
  }

  lemma FrameIds()
    ensures Ack().sid == SID && Ack().kind == ExecAck && Bye().sid == SID && Bye().kind == Exit
  {
  }

  /** The relay reads the head of the wire and puts it in the call's channel. */
  lemma RouteOne(c: Link.Conn, ss: Session, read: seq<Incoming>)
    requires c.up != [] && c.up[0].sid == SID && Routable(c.up[0]) && |ss.box.queue| < TO_BROWSER
    ensures Next(With(c, ss, read), Route(0))
            == Some(With(c.(up := c.up[1..], routed := c.routed + [c.up[0]]),
                         ss.(box := ss.box.(queue := ss.box.queue + [c.up[0]])), read + [Incoming(0, c.up[0])]))
  {
    hide TrySend, Registered, NextOperator, NextService, Link.AgentNext, Routable;
    var d := c.(up := c.up[1..], routed := c.routed + [c.up[0]]);
    assert [c][0 := d] == [d];
    Same(Next(With(c, ss, read), Route(0)).value,
         With(d, ss.(box := ss.box.(queue := ss.box.queue + [c.up[0]])), read + [Incoming(0, c.up[0])]));
  }

  lemma Routes(n: nat)
    requires n == 12 || n == 13
    ensures Next(S(n), Does(n)) == Some(S(n + 1))
  {
    FrameIds();
    hide Next, G, F, Ack, Bye, With;
    assert [Ack(), Bye()][1..] == [Bye()] && [Bye()][1..] == [];
    var c, waiting := Connected([], [], 8, [Bye()], [F()], [Ack()]), Call([], [], Live, None);
    var ss := Call([Ack()], [], Live, None);
    if n == 12 {
      RouteOne(Wire(12), waiting, []);
      assert [] + [Ack()] == [Ack()] && [] + [Incoming(0, Ack())] == [Incoming(0, Ack())];
      SameConn(Wire(12).(up := Wire(12).up[1..], routed := Wire(12).routed + [Wire(12).up[0]]), c);
      SameSession(waiting.(box := waiting.box.(queue := waiting.box.queue + [Ack()])), ss);
    } else {
      RouteOne(c, ss, [Incoming(0, Ack())]);
      assert [Ack()] + [Bye()] == [Ack(), Bye()];
      assert [Incoming(0, Ack())] + [Incoming(0, Bye())] == [Incoming(0, Ack()), Incoming(0, Bye())];
      SameConn(c.(up := c.up[1..], routed := c.routed + [c.up[0]]), Connected([], [], 8, [], [F()], [Ack(), Bye()]));
      SameSession(ss.(box := ss.box.(queue := ss.box.queue + [Bye()])), Call([Ack(), Bye()], [], Live, None));
    }
  }

  lemma Collects()
    ensures Collect([Ack()]).res == None && Collect([Ack(), Bye()]).res == Some(RESULT)
  {
    CollectFirst(Ack());
    CollectSnoc([Ack()], Bye());
    assert [Ack()] + [Bye()] == [Ack(), Bye()];
  }

  lemma Takes(n: nat)
    requires n == 14 || n == 15
    ensures Next(S(n), Does(n)) == Some(S(n + 1))
  {
    hide G, Collect, F;
    Collects();
    assert [] + [Ack()] == [Ack()] && [Ack()] + [Bye()] == [Ack(), Bye()];
    var t := Next(S(n), Does(n)).value;
    SameSession(t.sessions[0], S(n + 1).sessions[0]);
    Same(t, S(n + 1));
  }

  lemma EveryStep(n: nat)
    requires n < 16
    ensures Next(S(n), Does(n)) == Some(S(n + 1))
  {
    hide Next, S, Does;
    if n == 0 { Connects(); }
    else if n == 1 { Calls(); }
    else if n == 2 { Sends(); }
    else if n == 3 { Pumps(); }
    else if n < 12 { AgentSteps(n - 4); }
    else if n < 14 { Routes(n); }
    else { Takes(n); }
  }

  /** A device connects, a service call runs `true` on it, and the call returns its exit. */
  lemma ACallCompletes()
    ensures exists run :: IsRun(run) && |Now(run).sessions| == 1 && Now(run).sessions[0].ending == Some(Exited(RESULT))
  {
    hide Next, Does;
    var run := seq(17, n requires 0 <= n < 17 => S(n));
    forall n | 0 <= n < |run| - 1
      ensures Steps(run[n], run[n + 1])
    {
      EveryStep(n);
    }
    assert IsRun(run) && Now(run) == S(16);
  }

  /* ---- A connection that ends under a running exec ---- */

  /** The connection drops just after an exec was dispatched, and the agent ends by a panic. */
  lemma ADropCanEndTheAgent()
    ensures exists run :: AgentLoop.IsRun(run) && AgentLoop.Now(run).crash == Some(AgentLoop.FromExec(0))
  {
    hide AgentLoop.Next, AgentLoop.IsRun, G;
    var end := G(2).(reader := AgentLoop.Stopped);
    HangsUp(end);
    Dispatching();
    var r0 := [AgentLoop.INIT];
    AgentPanics.OneMore(r0, Act(0), G(1));
    AgentPanics.OneMore(r0 + [G(1)], Act(1), G(2));
    AgentPanics.OneMore(r0 + [G(1)] + [G(2)], AgentLoop.HangUp, end);
    AgentPanics.PanicsIff(r0 + [G(1)] + [G(2)] + [end], 0);
  }

  lemma Dispatching()
    ensures AgentLoop.IsRun([AgentLoop.INIT])
    ensures AgentLoop.Next(AgentLoop.INIT, Act(0)) == Some(G(1)) && AgentLoop.Next(G(1), Act(1)) == Some(G(2))
  {
    AgentStarts(0);
    AgentStarts(1);
  }

  lemma HangsUp(end: AgentLoop.State)
    requires end == G(2).(reader := AgentLoop.Stopped)
    ensures AgentLoop.Next(G(2), AgentLoop.HangUp) == Some(end)
    ensures end.reader.Stopped? && end.crash.None? && |end.jobs| == 1 && AgentPanics.Pending(end.jobs[0].phase)
  {
    hide F;
  }

  /* ---- Where the relay does not do what its comments say ---- */

  const IDLE := Link.NewConn("d", 32)
  const OPERATOR := Session("s", 0, None, FRESH, [], Live, None, true, 0, None)

  function Minted(conns: seq<Link.Conn>, reg: map<string, nat>): State {
    INIT.(conns := conns, reg := reg, owner := map["s" := Owner("d", false)], opens := multiset{"s"})
  }

  function Joined(conn: Link.Conn, reg: map<string, nat>): State {
    Minted([conn], reg).(sessions := [OPERATOR], router := map["s" := 0], attaches := multiset{"s"})
  }

  lemma MintSteps(conns: seq<Link.Conn>, reg: map<string, nat>)
    ensures Steps(INIT.(conns := conns, reg := reg), Minted(conns, reg))
  {
    var s := INIT.(conns := conns, reg := reg);
    Same(Next(s, Mint("s", "d")).value, Minted(conns, reg));
    assert Next(s, Mint("s", "d")) == Some(Minted(conns, reg));
  }

  /** An id can be minted and never used: session.open without session.close. */
  lemma OpenWithoutClose()
    ensures exists run :: IsRun(run) && Now(run).opens["s"] == 1 && Now(run).closes["s"] == 0 && Now(run).sessions == []
  {
    hide Next;
    MintSteps([], map[]);
    var run := [INIT, Minted([], map[])];
    assert INIT.(conns := [], reg := map[]) == INIT;
    assert IsRun(run) && Now(run) == Minted([], map[]);
  }

  lemma ConnectSteps()
    ensures Steps(INIT, INIT.(conns := [IDLE], reg := map["d" := 0]))
  {
    Same(Next(INIT, Connect("d", 32)).value, INIT.(conns := [IDLE], reg := map["d" := 0]));
    assert Next(INIT, Connect("d", 32)) == Some(INIT.(conns := [IDLE], reg := map["d" := 0]));
  }

  lemma AttachSteps()
    ensures Steps(Minted([IDLE], map["d" := 0]), Joined(IDLE, map["d" := 0]))
  {
    hide Link.Next;
    var s, t := Minted([IDLE], map["d" := 0]), Joined(IDLE, map["d" := 0]);
    Same(Next(s, Attach("s", 0)).value, t);
    assert Next(s, Attach("s", 0)) == Some(t);
  }

  function Closed(): Link.Conn { IDLE.(open := false, closes := 1) }

  lemma DisconnectSteps()
    ensures Steps(Joined(IDLE, map["d" := 0]), Joined(Closed(), map[]))
  {
    hide Link.AgentNext;
    var s, t := Joined(IDLE, map["d" := 0]), Joined(Closed(), map[]);
    Same(Next(s, Disconnect(0)).value, t);
    assert Next(s, Disconnect(0)) == Some(t);
  }

  lemma SendCrashes()
    ensures Steps(Joined(Closed(), map[]), Joined(Closed(), map[]).(crashed := true))
  {
    hide Link.AgentNext;
    var s, f := Joined(Closed(), map[]), Bare(Cancel, "s", "");
    Same(Next(s, FromOperator(0, f)).value, s.(crashed := true));
    assert Next(s, FromOperator(0, f)) == Some(s.(crashed := true));
  }

  /** A plain disconnect is enough for an operator's next frame to panic: one connection,
      never replaced. */
  lemma ADisconnectCanCrash()
    ensures exists run :: IsRun(run) && Now(run).crashed && |Now(run).conns| == 1
  {
    hide Next;
    ConnectSteps();
    MintSteps([IDLE], map["d" := 0]);
    AttachSteps();
    DisconnectSteps();
    SendCrashes();
    var end := Joined(Closed(), map[]).(crashed := true);
    var run := [INIT, INIT.(conns := [IDLE], reg := map["d" := 0]), Minted([IDLE], map["d" := 0]),
                Joined(IDLE, map["d" := 0]), Joined(Closed(), map[]), end];
    assert IsRun(run) && Now(run) == end;
  }
}
