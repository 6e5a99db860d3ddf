/** One agent connection from end to end: the relay's bounded outbound channel, the wire to
    the agent, the agent of module AgentLoop, and the wire back to the relay's read pump. */
module Link {
  import opened Prelude
  import opened Exec
  import AgentLoop
  import AgentRuns
  import AgentTraces
  import AgentStops

  /** `bufSize` is the relay's configured write buffer; `closes` counts how often the outbound
      channel was closed. */
  datatype Conn = Conn(device: string, bufSize: nat, open: bool, closes: nat, outbound: seq<Frame>, down: seq<Frame>,
                       agent: AgentLoop.State, up: seq<Frame>, sentDown: seq<Frame>, routed: seq<Frame>)

  function NewConn(device: string, bufSize: nat): Conn {
    Conn(device, bufSize, true, 0, [], [], AgentLoop.INIT, [], [], [])
  }

  const PING := Bare(Ping, "", "")

  datatype LinkAction =
    | Accept(f: Frame)            // Agent.Send queued f
    | Pump                        // write pump: outbound to the wire
    | PingDown                    // write pump's keep-alive
    | AgentStep(a: AgentLoop.Action)
    | PingUp                      // the agent writer's keep-alive
    | Read                        // read pump takes a frame
    | Shut                        // the registry closes outbound

  function Next(c: Conn, la: LinkAction): Option<Conn> {
    match la
    case Accept(f) =>
      if c.open && |c.outbound| < c.bufSize
      then Some(c.(outbound := c.outbound + [f], sentDown := c.sentDown + [f])) else None
    case Pump =>
      if c.outbound != [] then Some(c.(outbound := c.outbound[1..], down := c.down + [c.outbound[0]])) else None
    case PingDown => Some(c.(down := c.down + [PING]))
    case AgentStep(a) => AgentNext(c, a)
    case PingUp => Some(c.(up := c.up + [PING]))
    case Read => if c.up != [] then Some(c.(up := c.up[1..], routed := c.routed + [c.up[0]])) else None
    case Shut => if c.open then Some(c.(open := false, closes := c.closes + 1)) else None // else it would panic
  }

  function AgentNext(c: Conn, a: AgentLoop.Action): Option<Conn> {
    match AgentLoop.Next(c.agent, a)
    case None => None
    case Some(t) =>
      if a.Receive? then
        if c.down != [] && c.down[0] == a.f then Some(c.(agent := t, down := c.down[1..])) else None
      else if a.Drain? && c.agent.out != [] then Some(c.(agent := t, up := c.up + [c.agent.out[0].frame]))
      else Some(c.(agent := t))
  }

  /* ---- Projections of a run of frames ---- */

  predicate Picked(f: Frame, sid: string, execs: bool) { f.sid == sid && (execs ==> AgentLoop.ValidExec(f)) }

  /** The frames of one session, or only its well-formed exec requests, in order. */
  function Pick(fs: seq<Frame>, sid: string, execs: bool): seq<Frame> {
    if fs == [] then []
    else Pick(fs[..|fs| - 1], sid, execs) + (if Picked(fs[|fs| - 1], sid, execs) then [fs[|fs| - 1]] else [])
  }

  lemma {:induction false} PickConcat(a: seq<Frame>, b: seq<Frame>, sid: string, execs: bool)
    ensures Pick(a + b, sid, execs) == Pick(a, sid, execs) + Pick(b, sid, execs)
  {
    if b == [] {
      assert a + b == a;
    } else {
      PickConcat(a, b[..|b| - 1], sid, execs);
      assert (a + b)[..|a + b| - 1] == a + b[..|b| - 1];
    }
  }

  lemma PickOne(f: Frame, sid: string, execs: bool)
    ensures Pick([f], sid, execs) == if Picked(f, sid, execs) then [f] else []
  {
    assert [f][..0] == [];
  }

  lemma PickHead(fs: seq<Frame>, sid: string, execs: bool)
    requires fs != []
    ensures Pick(fs, sid, execs) == (if Picked(fs[0], sid, execs) then [fs[0]] else []) + Pick(fs[1..], sid, execs)
  {
    PickConcat([fs[0]], fs[1..], sid, execs);
    PickOne(fs[0], sid, execs);
    assert fs == [fs[0]] + fs[1..];
  }

  lemma {:induction false} PickMembers(fs: seq<Frame>, sid: string, execs: bool)
    ensures forall f :: f in Pick(fs, sid, execs) <==> f in fs && Picked(f, sid, execs)
  {
    if fs != [] {
      PickMembers(fs[..|fs| - 1], sid, execs);
      assert fs == fs[..|fs| - 1] + [fs[|fs| - 1]];
    }
  }

  lemma {:induction false} PickNone(fs: seq<Frame>, sid: string, execs: bool)
    requires forall i :: 0 <= i < |fs| ==> fs[i].sid != sid
    ensures Pick(fs, sid, execs) == []
  {
    if fs != [] {
      PickNone(fs[..|fs| - 1], sid, execs);
    }
  }

  function Requests(jobs: seq<AgentLoop.Job>): seq<Frame> { seq(|jobs|, i requires 0 <= i < |jobs| => jobs[i].frame) }
  function Sent(ts: seq<AgentLoop.Tagged>): seq<Frame> { seq(|ts|, i requires 0 <= i < |ts| => ts[i].frame) }

  /* ---- Invariant ---- */

  /** Nothing is lost, duplicated or reordered in either direction, for any one session: the
      exec requests the agent has dispatched, then those on their way, are those accepted by
      Send; what was read, then what is on its way, is what the agent's goroutines sent. */
  ghost predicate Flow(c: Conn, sid: string) {
    && Pick(c.sentDown, sid, true)
       == Pick(Requests(c.agent.jobs), sid, true) + Pick(c.down, sid, true) + Pick(c.outbound, sid, true)
    && Pick(Sent(c.agent.history), sid, false)
       == Pick(c.routed, sid, false) + Pick(c.up, sid, false) + Pick(Sent(c.agent.out), sid, false)
  }

  predicate Supplied(c: Conn, f: Frame) { f == PING || f in c.sentDown }

  predicate ShellAsked(sentDown: seq<Frame>, sid: string) {
    exists k :: 0 <= k < |sentDown| && sentDown[k].kind.PtyStart? && sentDown[k].sid == sid
  }

  ghost predicate Sources(c: Conn) {
    && (forall k :: 0 <= k < |c.outbound| ==> Supplied(c, c.outbound[k]))
    && (forall k :: 0 <= k < |c.down| ==> Supplied(c, c.down[k]))
    && (forall p :: p in c.agent.ptys ==> ShellAsked(c.sentDown, p))
  }

  /** Without the keep-alives. */
  function NonPing(fs: seq<Frame>): seq<Frame> {
    if fs == [] then []
    else NonPing(fs[..|fs| - 1]) + (if fs[|fs| - 1].kind.Ping? then [] else [fs[|fs| - 1]])
  }

  /** The whole of both directions, keep-alives apart: every frame Send accepted has been
      received, or is under way, in the order accepted; likewise on the way back. */
  ghost predicate Fifo(c: Conn) {
    && NonPing(c.sentDown) == NonPing(c.agent.received) + NonPing(c.down) + NonPing(c.outbound)
    && NonPing(Sent(c.agent.history)) == NonPing(c.routed) + NonPing(c.up) + NonPing(Sent(c.agent.out))
  }

  lemma {:induction false} NonPingConcat(a: seq<Frame>, b: seq<Frame>)
    ensures NonPing(a + b) == NonPing(a) + NonPing(b)
  {
    if b == [] {
      assert a + b == a;
    } else {
      NonPingConcat(a, b[..|b| - 1]);
      assert (a + b)[..|a + b| - 1] == a + b[..|b| - 1];
    }
  }

  lemma NonPingHead(fs: seq<Frame>)
    requires fs != []
    ensures NonPing(fs) == NonPing([fs[0]]) + NonPing(fs[1..])
  {
    NonPingConcat([fs[0]], fs[1..]);
    assert fs == [fs[0]] + fs[1..];
  }

  lemma {:induction false} NonPingBefore(fs: seq<Frame>, x: Frame, y: Frame)
    requires !x.kind.Ping? && !y.kind.Ping?
    ensures AgentStops.Before(NonPing(fs), x, y) <==> AgentStops.Before(fs, x, y)
    ensures x in NonPing(fs) <==> x in fs
  {
    hide AgentStops.Before;
    if fs == [] {
      NeverBefore(x, y);
    } else {
      var front, last := fs[..|fs| - 1], fs[|fs| - 1];
      assert fs == front + [last];
      NonPingBefore(front, x, y);
      AgentStops.BeforeSnoc(front, last, x, y);
      AgentStops.BeforeSnoc(NonPing(front), last, x, y);
      assert NonPing(front) + [] == NonPing(front);
    }
  }

  lemma NeverBefore(x: Frame, y: Frame)
    ensures !AgentStops.Before([], x, y)
  {
  }

  ghost predicate Flows(c: Conn) { forall sid :: sid != "" ==> Flow(c, sid) }

  ghost predicate Inv(c: Conn) {
    AgentLoop.Inv(c.agent) && AgentStops.Inv(c.agent) && Flows(c) && Fifo(c) && Sources(c) && |c.outbound| <= c.bufSize
  }

  /** The exec request a step of the agent dispatches. */
  function Dispatched(a: AgentLoop.Action): seq<Frame> {
    if a.Receive? && AgentLoop.ValidExec(a.f) then [a.f] else []
  }

  lemma AgentShape(s: AgentLoop.State, a: AgentLoop.Action, t: AgentLoop.State)
    requires AgentLoop.Inv(s) && AgentLoop.Next(s, a) == Some(t)
    ensures Requests(t.jobs) == Requests(s.jobs) + Dispatched(a)
    ensures t.received == s.received + (if a.Receive? then [a.f] else [])
    ensures t.ptys <= s.ptys + (if a.Receive? && a.f.kind.PtyStart? then {a.f.sid} else {})
    ensures a.Drain? ==> s.out != [] && t.history == s.history && t.out == s.out[1..]
    ensures !a.Drain? ==> s.history <= t.history && t.out == s.out + t.history[|s.history|..]
  {
    hide AgentLoop.JobsOk, AgentLoop.TagsOk, AgentLoop.CancelsOk, AgentLoop.SemOk, AgentLoop.ValidExec;
    hide AgentLoop.JobStep;
    if t == s.(crash := t.crash) {
      assert !a.Receive? && !a.Drain?;
    } else if !AgentStops.Readers(a) {
      GoroutineShape(s, a, t);
    } else if a.Receive? && AgentLoop.ValidExec(a.f) {
      AgentRuns.ExecOnly(a.f);
    }
  }

  lemma GoroutineShape(s: AgentLoop.State, a: AgentLoop.Action, t: AgentLoop.State)
    requires AgentLoop.JobsOk(s) && AgentLoop.JobStep(s, a) == Some(t)
    ensures Requests(t.jobs) == Requests(s.jobs) && t.ptys == s.ptys && t.received == s.received
    ensures s.history <= t.history && t.out == s.out + t.history[|s.history|..]
  {
    hide AgentLoop.JobsOk, ExecFrames, Tail, AckFrame, CapOf, Possible;
    AgentRuns.JobStepShape(s, a, t);
  }

  lemma SentConcat(a: seq<AgentLoop.Tagged>, b: seq<AgentLoop.Tagged>)
    ensures Sent(a + b) == Sent(a) + Sent(b)
  {
  }

  lemma FlowAgentStep(c: Conn, a: AgentLoop.Action, d: Conn, sid: string)
    requires AgentLoop.Inv(c.agent) && Flow(c, sid) && AgentNext(c, a) == Some(d) && sid != ""
    ensures Flow(d, sid)
  {
    hide AgentLoop.Inv, AgentLoop.Next, Pick, AgentLoop.ValidExec;
    AgentShape(c.agent, a, d.agent);
    if a.Receive? {
      PickHead(c.down, sid, true);
      PickConcat(Requests(c.agent.jobs), Dispatched(a), sid, true);
      DispatchedPick(a, sid);
    } else {
      assert Requests(c.agent.jobs) + [] == Requests(c.agent.jobs);
    }
    if a.Drain? {
      PickHead(Sent(c.agent.out), sid, false);
      assert Sent(c.agent.out)[1..] == Sent(d.agent.out);
      PickConcat(c.up, [c.agent.out[0].frame], sid, false);
      PickOne(c.agent.out[0].frame, sid, false);
    } else {
      var new_ := d.agent.history[|c.agent.history|..];
      assert d.agent.history == c.agent.history + new_;
      SentConcat(c.agent.history, new_);
      SentConcat(c.agent.out, new_);
      PickConcat(Sent(c.agent.history), Sent(new_), sid, false);
      PickConcat(Sent(c.agent.out), Sent(new_), sid, false);
    }
  }

  lemma DispatchedPick(a: AgentLoop.Action, sid: string)
    requires a.Receive?
    ensures Pick(Dispatched(a), sid, true) == if Picked(a.f, sid, true) then [a.f] else []
  {
    if AgentLoop.ValidExec(a.f) {
      PickOne(a.f, sid, true);
    }
  }

  lemma FlowStep(c: Conn, la: LinkAction, d: Conn, sid: string)
    requires AgentLoop.Inv(c.agent) && Flow(c, sid) && Next(c, la) == Some(d) && sid != ""
    ensures Flow(d, sid)
  {
    hide AgentLoop.Inv, Pick, AgentNext, AgentLoop.ValidExec;
    match la
    case Accept(f) =>
      PickConcat(c.outbound, [f], sid, true);
      PickConcat(c.sentDown, [f], sid, true);
    case Pump =>
      PickHead(c.outbound, sid, true);
      PickConcat(c.down, [c.outbound[0]], sid, true);
      PickOne(c.outbound[0], sid, true);
    case PingDown =>
      PickConcat(c.down, [PING], sid, true);
      PickOne(PING, sid, true);
    case AgentStep(a) => FlowAgentStep(c, a, d, sid);
    case PingUp =>
      PickConcat(c.up, [PING], sid, false);
      PickOne(PING, sid, false);
    case Read =>
      PickHead(c.up, sid, false);
      PickConcat(c.routed, [c.up[0]], sid, false);
      PickOne(c.up[0], sid, false);
    case Shut =>
  }

  lemma FifoAgentStep(c: Conn, a: AgentLoop.Action, d: Conn)
    requires AgentLoop.Inv(c.agent) && Fifo(c) && AgentNext(c, a) == Some(d)
    ensures Fifo(d)
  {
    hide AgentLoop.Inv, AgentLoop.Next, NonPing, AgentLoop.ValidExec;
    AgentShape(c.agent, a, d.agent);
    if a.Receive? {
      NonPingHead(c.down);
      NonPingConcat(c.agent.received, [c.down[0]]);
    } else {
      assert c.agent.received + [] == c.agent.received;
    }
    if a.Drain? {
      NonPingHead(Sent(c.agent.out));
      assert Sent(c.agent.out)[1..] == Sent(d.agent.out);
      NonPingConcat(c.up, [c.agent.out[0].frame]);
    } else {
      var new_ := d.agent.history[|c.agent.history|..];
      assert d.agent.history == c.agent.history + new_;
      SentConcat(c.agent.history, new_);
      SentConcat(c.agent.out, new_);
      NonPingConcat(Sent(c.agent.history), Sent(new_));
      NonPingConcat(Sent(c.agent.out), Sent(new_));
    }
  }

  lemma PingIsPing()
    ensures NonPing([PING]) == []
  {
  }

  lemma FifoStep(c: Conn, la: LinkAction, d: Conn)
    requires AgentLoop.Inv(c.agent) && Fifo(c) && Next(c, la) == Some(d)
    ensures Fifo(d)
  {
    hide AgentLoop.Inv, NonPing, AgentNext;
    match la
    case Accept(f) =>
      NonPingConcat(c.outbound, [f]);
      NonPingConcat(c.sentDown, [f]);
    case Pump =>
      NonPingHead(c.outbound);
      NonPingConcat(c.down, [c.outbound[0]]);
    case PingDown =>
      NonPingConcat(c.down, [PING]);
      PingIsPing();
    case AgentStep(a) => FifoAgentStep(c, a, d);
    case PingUp =>
      NonPingConcat(c.up, [PING]);
      PingIsPing();
    case Read =>
      NonPingHead(c.up);
      NonPingConcat(c.routed, [c.up[0]]);
    case Shut =>
  }

  lemma SourcesStep(c: Conn, la: LinkAction, d: Conn)
    requires AgentLoop.Inv(c.agent) && Sources(c) && Next(c, la) == Some(d)
    ensures Sources(d)
  {
    hide AgentLoop.Inv, AgentLoop.Next, AgentLoop.ValidExec;
    if la.AgentStep? {
      AgentShape(c.agent, la.a, d.agent);
      forall p | p in d.agent.ptys
        ensures ShellAsked(d.sentDown, p)
      {
        if p !in c.agent.ptys {
          assert Supplied(c, c.down[0]) && c.down[0].kind.PtyStart? && c.down[0].sid == p;
        }
      }
    } else {
      forall p | p in d.agent.ptys
        ensures ShellAsked(d.sentDown, p)
      {
        assert ShellAsked(c.sentDown, p);
        var k :| 0 <= k < |c.sentDown| && c.sentDown[k].kind.PtyStart? && c.sentDown[k].sid == p;
        assert d.sentDown[k] == c.sentDown[k];
      }
      forall f | Supplied(c, f)
        ensures Supplied(d, f)
      {
      }
    }
  }

  lemma InvStep(c: Conn, la: LinkAction, d: Conn)
    requires Inv(c) && Next(c, la) == Some(d)
    ensures Inv(d)
  {
    hide AgentLoop.Inv, AgentStops.Inv, AgentLoop.Next, Flow, Fifo, Sources;
    forall sid | sid != ""
      ensures Flow(d, sid)
    {
      FlowStep(c, la, d, sid);
    }
    FifoStep(c, la, d);
    SourcesStep(c, la, d);
    if la.AgentStep? {
      AgentRuns.InvStep(c.agent, la.a, d.agent);
      AgentStops.InvStep(c.agent, la.a, d.agent);
    }
  }

  lemma NewConnInv(device: string, bufSize: nat)
    ensures Inv(NewConn(device, bufSize))
  {
    AgentRuns.InitInv();
    AgentStops.InitInv();
  }

  /* ---- What follows for the frames of one session ---- */

  /** Some request accepted by Send made the agent send f: an exec of f's ids, or a shell. */
  predicate Caused(sentDown: seq<Frame>, f: Frame) {
    exists k :: 0 <= k < |sentDown| && sentDown[k].sid == f.sid
                && ((AgentLoop.ValidExec(sentDown[k]) && sentDown[k].eid == f.eid)
                    || (sentDown[k].kind.PtyStart? && f.eid == ""))
  }

  lemma EveryFrameCaused(c: Conn, f: Frame)
    requires Inv(c) && f.sid != ""
    requires f in c.routed || f in c.up || f in Sent(c.agent.out)
    ensures Caused(c.sentDown, f)
  {
    hide AgentLoop.JobsOk, AgentLoop.CancelsOk, Pick, AgentLoop.ValidExec;
    assert Flow(c, f.sid);
    PickMembers(c.routed, f.sid, false);
    PickMembers(c.up, f.sid, false);
    PickMembers(Sent(c.agent.out), f.sid, false);
    PickMembers(Sent(c.agent.history), f.sid, false);
    assert f in Pick(Sent(c.agent.history), f.sid, false);
    var k :| 0 <= k < |c.agent.history| && c.agent.history[k].frame == f;
    var t := c.agent.history[k];
    assert AgentLoop.TagOk(c.agent, t);
    match t.origin
    case FromExec(i) => RequestAccepted(c, i);
    case FromPty => assert ShellAsked(c.sentDown, f.sid);
  }

  /** A dispatched exec was accepted by Send. */
  lemma RequestAccepted(c: Conn, i: nat)
    requires Inv(c) && i < |c.agent.jobs|
    ensures AgentLoop.ValidExec(c.agent.jobs[i].frame) && c.agent.jobs[i].frame in c.sentDown
  {
    hide Pick;
    AgentRuns.JobOk(c.agent, i);
    var f := c.agent.jobs[i].frame;
    assert Flow(c, f.sid);
    assert Requests(c.agent.jobs)[i] == f;
    PickMembers(Requests(c.agent.jobs), f.sid, true);
    PickMembers(c.sentDown, f.sid, true);
    assert f in Pick(c.sentDown, f.sid, true);
  }

  /* ---- A session with a single request ---- */

  /** Send has accepted no shell request of f's session, and no exec but (perhaps) f. */
  ghost predicate OnlyRequest(c: Conn, f: Frame) {
    && AgentLoop.ValidExec(f) && !ShellAsked(c.sentDown, f.sid)
    && (Pick(c.sentDown, f.sid, true) == [] || Pick(c.sentDown, f.sid, true) == [f])
  }

  /** The agent has dispatched f as exec i, and no other exec of its session. */
  predicate RunsAs(jobs: seq<AgentLoop.Job>, f: Frame, i: nat) {
    i < |jobs| && jobs[i].frame == f && forall k :: 0 <= k < |jobs| && k != i ==> jobs[k].frame.sid != f.sid
  }

  predicate NotDispatched(jobs: seq<AgentLoop.Job>, sid: string) {
    forall k :: 0 <= k < |jobs| ==> jobs[k].frame.sid != sid
  }

  ghost predicate AllValid(jobs: seq<AgentLoop.Job>) {
    forall k :: 0 <= k < |jobs| ==> AgentLoop.ValidExec(jobs[k].frame)
  }

  lemma FrontRequests(jobs: seq<AgentLoop.Job>)
    requires jobs != []
    ensures Requests(jobs)[..|jobs| - 1] == Requests(jobs[..|jobs| - 1])
  {
  }

  lemma {:induction false} FindNone(jobs: seq<AgentLoop.Job>, sid: string)
    requires AllValid(jobs) && Pick(Requests(jobs), sid, true) == []
    ensures NotDispatched(jobs, sid)
  {
    hide AgentLoop.ValidExec;
    if jobs != [] {
      FrontRequests(jobs);
      FindNone(jobs[..|jobs| - 1], sid);
    }
  }

  lemma {:induction false} FindOne(jobs: seq<AgentLoop.Job>, f: Frame)
    requires AllValid(jobs) && Pick(Requests(jobs), f.sid, true) == [f]
    ensures exists i: nat :: RunsAs(jobs, f, i)
  {
    hide AgentLoop.ValidExec;
    var n := |jobs| - 1;
    var front := jobs[..n];
    FrontRequests(jobs);
    if jobs[n].frame.sid == f.sid {
      var p := Pick(Requests(front), f.sid, true) + [jobs[n].frame];
      assert p == [f] && p[|p| - 1] == jobs[n].frame;
      FindNone(front, f.sid);
      assert RunsAs(jobs, f, n);
    } else {
      FindOne(front, f);
      var i: nat :| RunsAs(front, f, i);
      assert RunsAs(jobs, f, i);
    }
  }

  lemma FoundOrNot(c: Conn, f: Frame)
    requires Inv(c) && OnlyRequest(c, f)
    ensures NotDispatched(c.agent.jobs, f.sid) || exists i: nat :: RunsAs(c.agent.jobs, f, i)
  {
    hide Pick, Sources, AgentLoop.TagsOk, AgentLoop.CancelsOk, AgentLoop.ReaderOk, RunsAs, NotDispatched;
    forall k | 0 <= k < |c.agent.jobs|
      ensures AgentLoop.ValidExec(c.agent.jobs[k].frame)
    {
      AgentRuns.JobOk(c.agent, k);
    }
    assert Flow(c, f.sid);
    var p := Pick(Requests(c.agent.jobs), f.sid, true);
    if p == [] {
      FindNone(c.agent.jobs, f.sid);
    } else {
      assert p == [f];
      FindOne(c.agent.jobs, f);
    }
  }

  /** What the agent sends for the session is what it sends for that exec. */
  lemma {:induction false} SessionTrace(c: Conn, history: seq<AgentLoop.Tagged>, f: Frame, i: nat)
    requires f.sid != "" && f.sid !in c.agent.ptys
    requires RunsAs(c.agent.jobs, f, i) || (NotDispatched(c.agent.jobs, f.sid) && i >= |c.agent.jobs|)
    requires forall k :: 0 <= k < |history| ==> AgentLoop.TagOk(c.agent, history[k])
    ensures Pick(Sent(history), f.sid, false) == AgentLoop.SentBy(history, i)
  {
    if history != [] {
      var n := |history| - 1;
      SessionTrace(c, history[..n], f, i);
      assert Sent(history)[..n] == Sent(history[..n]);
      assert AgentLoop.TagOk(c.agent, history[n]);
    }
  }

  /** The exec's whole fate once an exit of its session has been read. */
  ghost predicate Answered(j: AgentLoop.Job, trace: seq<Frame>) {
    match j.phase
    case Refused => trace == [FailFrame(j.frame, "busy")]
    case Flushing(todo, oc) => todo == [] && AgentLoop.FateOk(j, oc) && trace == ExecFrames(j.frame, oc)
    case Returned(oc) => AgentLoop.FateOk(j, oc) && trace == ExecFrames(j.frame, oc)
    case CancelDone(oc) => AgentLoop.FateOk(j, oc) && trace == ExecFrames(j.frame, oc)
    case Released(oc) => AgentLoop.FateOk(j, oc) && trace == ExecFrames(j.frame, oc)
    case Finished(oc) => AgentLoop.FateOk(j, oc) && trace == ExecFrames(j.frame, oc)
    case _ => false
  }

  ghost predicate AnsweredBy(jobs: seq<AgentLoop.Job>, f: Frame, trace: seq<Frame>) {
    exists i: nat :: RunsAs(jobs, f, i) && Answered(jobs[i], trace)
  }

  predicate EndsInExit(fs: seq<Frame>) { fs != [] && fs[|fs| - 1].kind.Exit? }

  /** All the agent has sent for the session so far, read or not. */
  function AllSent(c: Conn, sid: string): seq<Frame> { Pick(Sent(c.agent.history), sid, false) }

  /** It starts one trace of the grammar, so it has at most four frames. */
  lemma SessionGrammar(c: Conn, f: Frame)
    requires Inv(c) && OnlyRequest(c, f)
    ensures exists whole :: Grammar(f, whole) && AllSent(c, f.sid) <= whole
  {
    hide Pick, AgentLoop.Inv, Flows, Grammar, ShellAsked;
    FoundOrNot(c, f);
    if i: nat :| RunsAs(c.agent.jobs, f, i) {
      OwnFrames(c, f, i);
      OneJob(c, f, i);
    } else {
      NobodySent(c, f);
      assert AllSent(c, f.sid) <= ExecFrames(f, StartFailed);
    }
  }

  /** Once it ends in an exit it is the complete answer to the request. */
  lemma SessionAnswered(c: Conn, f: Frame)
    requires Inv(c) && OnlyRequest(c, f)
    requires EndsInExit(AllSent(c, f.sid))
    ensures AnsweredBy(c.agent.jobs, f, AllSent(c, f.sid))
  {
    hide Pick, AgentLoop.Inv, Flows, Grammar, ShellAsked, Answered;
    FoundOrNot(c, f);
    if i: nat :| RunsAs(c.agent.jobs, f, i) {
      OwnFrames(c, f, i);
      OneJob(c, f, i);
    } else {
      NobodySent(c, f);
    }
  }

  /** When the agent is done with the request, all of its answer has been sent. */
  lemma SessionComplete(c: Conn, f: Frame, i: nat)
    requires Inv(c) && OnlyRequest(c, f) && RunsAs(c.agent.jobs, f, i) && AgentTraces.Over(c.agent.jobs[i].phase)
    ensures Answered(c.agent.jobs[i], AllSent(c, f.sid))
  {
    hide Pick, AgentLoop.Inv, Flows, ShellAsked, Answered;
    OwnFrames(c, f, i);
    OneJob(c, f, i);
  }

  lemma OwnFrames(c: Conn, f: Frame, i: nat)
    requires Inv(c) && OnlyRequest(c, f) && RunsAs(c.agent.jobs, f, i)
    ensures AllSent(c, f.sid) == AgentLoop.SentBy(c.agent.history, i)
  {
    hide Pick, AgentLoop.JobsOk, AgentLoop.CancelsOk, AgentLoop.ReaderOk, Flows, AgentLoop.TagOk, ShellAsked;
    hide AgentLoop.SentBy;
    SessionTrace(c, c.agent.history, f, i);
  }

  lemma NobodySent(c: Conn, f: Frame)
    requires Inv(c) && OnlyRequest(c, f) && NotDispatched(c.agent.jobs, f.sid)
    ensures AllSent(c, f.sid) == [] && Grammar(f, ExecFrames(f, StartFailed))
  {
    hide AgentLoop.JobsOk, AgentLoop.CancelsOk, AgentLoop.ReaderOk, Flows;
    var n := |c.agent.jobs|;
    SessionTrace(c, c.agent.history, f, n);
    assert forall k :: 0 <= k < |c.agent.history| ==> AgentLoop.TagOk(c.agent, c.agent.history[k]);
    AgentRuns.SentByNobody(c.agent.history, n);
    ExecFramesGrammar(f, StartFailed);
  }

  lemma OneJob(c: Conn, f: Frame, i: nat)
    requires Inv(c) && RunsAs(c.agent.jobs, f, i)
    ensures var sent := AgentLoop.SentBy(c.agent.history, i);
            && (exists whole :: Grammar(f, whole) && sent <= whole)
            && (EndsInExit(sent) || AgentTraces.Over(c.agent.jobs[i].phase)
                ==> Answered(c.agent.jobs[i], sent))
  {
    hide AgentLoop.JobsOk, AgentLoop.CancelsOk, AgentLoop.ReaderOk, Flows, AgentLoop.SentBy, ExecFrames, FailFrame;
    hide AckFrame, Possible, AgentLoop.TagsOk;
    AgentRuns.JobOk(c.agent, i);
    var j, sent := c.agent.jobs[i], AgentLoop.SentBy(c.agent.history, i);
    AgentTraces.PrefixOfWhole(j, sent);
    AgentTraces.WholeGrammar(j);
    if EndsInExit(sent) {
      ExitIsLast(f, AgentTraces.Whole(j), |sent| - 1);
      assert sent == AgentTraces.Whole(j);
      AckIsNotExit(f);
    }
  }

  lemma ExitIsLast(f: Frame, whole: seq<Frame>, i: nat)
    requires Grammar(f, whole) && i < |whole| && whole[i].kind.Exit?
    ensures i == |whole| - 1
  {
  }

  lemma AckIsNotExit(f: Frame)
    ensures AckFrame(f).kind == ExecAck
  {
  }

  /** A cancel that Send accepted after the exec, on a connection that has drained downwards,
      has cancelled that exec. */
  lemma StopTakesEffect(c: Conn, f: Frame, i: nat, g: Frame)
    requires Inv(c) && RunsAs(c.agent.jobs, f, i) && AgentLoop.DistinctIds(c.agent.jobs)
    requires AgentStops.Cancels(g, c.agent.jobs[i]) && AgentStops.Before(c.sentDown, f, g)
    requires c.outbound == [] && c.down == []
    ensures c.agent.jobs[i].cancelled
  {
    hide AgentLoop.Inv, Flows, Sources, NonPing, AgentStops.Before, AgentLoop.ValidExec;
    RequestAccepted(c, i);
    AgentRuns.ExecOnly(f);
    NonPingBefore(c.sentDown, f, g);
    NonPingBefore(c.agent.received, f, g);
    NoFrames();
    assert NonPing(c.agent.received) + [] + [] == NonPing(c.agent.received);
  }

  lemma NoFrames()
    ensures NonPing([]) == []
  {
  }
}
