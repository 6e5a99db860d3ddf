/** The relay and all its agents as one transition system: the registry of connections, the
    router of sessions, operator and service sessions, and one end-to-end link per agent
    connection. A run is any sequence of enabled actions. */
module System {
  import opened Prelude
  import Runs
  import opened Exec
  import opened Routing
  import AgentLoop
  import Link

  datatype Stage =
    | Starting   // service: attached, exec not yet handed to Send
    | Live
    | Leaving    // operator: shell cancel sent, session.close not yet emitted
    | Ended
    | Gone       // detached

  datatype Ending = Exited(res: ExecRes) | TimedOut(res: ExecRes) | SawClose(res: ExecRes) | Unsent | Panicked

  /** An operator session has no request of its own; a service session has exactly one, made for
      the API call `call`. `since` is how much the relay had read when it was attached. */
  datatype Session = Session(sid: string, conn: nat, request: Option<Frame>, box: Box, taken: seq<Frame>,
                             stage: Stage, ending: Option<Ending>, reading: bool, since: nat, call: Option<Request>)

  /** A frame the read pump of connection c took off the wire. */
  datatype Incoming = Incoming(c: nat, frame: Frame)

  /** Which device an id was issued for, and whether to a service call. */
  datatype Owner = Owner(device: string, service: bool)

  /** `opens` and `closes` hold the session.open and session.close events of each session id,
      `attaches` the operators that attached under it; `read` is all that any read pump took,
      in order. */
  datatype State = State(conns: seq<Link.Conn>, reg: map<string, nat>, sessions: seq<Session>, router: map<string, nat>,
                         owner: map<string, Owner>, opens: multiset<string>, attaches: multiset<string>,
                         closes: multiset<string>, crashed: bool, read: seq<Incoming>)

  const INIT := State([], map[], [], map[], map[], multiset{}, multiset{}, multiset{}, false, [])

  datatype Request = Request(argv: seq<string>, script: Option<Script>, timeoutMs: int, outputCap: int)

  datatype Action =
    | Connect(device: string, bufSize: nat)
    | Disconnect(c: nat)
    | OnLink(c: nat, la: Link.LinkAction)
    | Route(c: nat)
    | Mint(sid: string, device: string)
    | Attach(sid: string, c: nat)
    | FromOperator(k: nat, f: Frame)
    | OperatorTake(k: nat)
    | EndSession(k: nat)
    | EmitClose(k: nat)
    | Detach(k: nat)
    | ServiceStart(c: nat, sid: string, eid: string, req: Request)
    | ServiceSend(k: nat)
    | ServiceTake(k: nat)
    | ServiceTimeout(k: nat)
    | ServiceClosed(k: nat)

  /* ---- What the relay lets through ---- */

  const MAX_TIMEOUT := 600_000
  const OPERATOR_TIMEOUT := 60_000

  function Clamped(e: ExecSpec, timeoutMs: int): ExecSpec {
    e.(timeoutMs := if e.timeoutMs <= 0 || e.timeoutMs > MAX_TIMEOUT then timeoutMs else e.timeoutMs,
       outputCap := if e.outputCap <= 0 || e.outputCap > MAX_CAP then DEFAULT_CAP else e.outputCap)
  }

  /** What becomes of a frame an operator sent; None when it is dropped. */
  function Stamp(f: Frame, sid: string): Option<Frame> {
    if f.kind !in {ExecStart, Cancel, PtyStart, PtyData, PtyResize} then None
    else
      var g := f.(sid := sid);
      if g.kind.ExecStart? && g.exec.Some? then
        if g.exec.value.argv == [] then None
        else Some(g.(exec := Some(Clamped(g.exec.value, OPERATOR_TIMEOUT))))
      else Some(g)
  }

  function ServiceFrame(sid: string, eid: string, r: Request): Frame {
    Bare(ExecStart, sid, eid).(exec := Some(Clamped(ExecSpec(r.argv, r.script, r.timeoutMs, r.outputCap), MAX_TIMEOUT)))
  }

  function Teardown(sid: string, eid: string): Frame { Bare(Cancel, sid, eid) }

  predicate Routable(f: Frame) {
    f.sid != "" && f.kind in {ExecAck, Exit, Error, Stdout, Stderr, PtyData, PtyExit}
  }

  /* ---- Steps ---- */

  function SetConn(s: State, c: nat, d: Link.Conn): State
    requires c < |s.conns|
  {
    s.(conns := s.conns[c := d])
  }

  function SetSession(s: State, k: nat, ss: Session): State
    requires k < |s.sessions|
  {
    s.(sessions := s.sessions[k := ss])
  }

  function OnConn(s: State, c: nat, la: Link.LinkAction): (r: Option<State>)
    ensures r.Some? ==> c < |s.conns| && r.value == s.(conns := r.value.conns) && |r.value.conns| == |s.conns|
  {
    if c >= |s.conns| then None
    else match Link.Next(s.conns[c], la)
      case Some(d) => Some(SetConn(s, c, d))
      case None => None
  }

  /** Agent.Send: the frame is queued when the channel is open and has room. */
  function TrySend(s: State, c: nat, f: Frame): (t: State)
    ensures t == s.(conns := t.conns) && |t.conns| == |s.conns|
  {
    match OnConn(s, c, Link.Accept(f))
    case Some(t) => t
    case None => s
  }

  predicate Current(s: State, c: nat) {
    c < |s.conns| && s.conns[c].device in s.reg && s.reg[s.conns[c].device] == c
  }

  /** close(outbound); closing a closed channel would panic. */
  function CloseOutbound(s: State, c: nat): (t: State)
    ensures t == s.(conns := t.conns, crashed := t.crashed) && |t.conns| == |s.conns|
  {
    match OnConn(s, c, Link.Shut)
    case Some(t) => t
    case None => s.(crashed := true)
  }

  /** Register: the device's previous channel, if any, is closed. */
  function Registered(s: State, device: string, bufSize: nat): State {
    var e := if device in s.reg then CloseOutbound(s, s.reg[device]) else s;
    e.(conns := e.conns + [Link.NewConn(device, bufSize)], reg := e.reg[device := |e.conns|])
  }

  function Heard(s: State, c: nat, f: Frame): State { s.(read := s.read + [Incoming(c, f)]) }

  /** routeAgentResponse. */
  function Delivered(s: State, f: Frame): State {
    if !Routable(f) || f.sid !in s.router || s.router[f.sid] >= |s.sessions| then s
    else
      var ss := s.sessions[s.router[f.sid]];
      SetSession(s, s.router[f.sid], ss.(box := Offer(ss.box, f)))
  }

  function Attached(s: State, ss: Session): (t: State)
    ensures t == s.(sessions := t.sessions, router := t.router)
  {
    s.(sessions := s.sessions + [ss], router := s.router[ss.sid := |s.sessions|])
  }

  /** detach(sid) removes whichever session the router has under the id. */
  function Detached(s: State, k: nat): (t: State)
    requires k < |s.sessions|
    ensures t == s.(sessions := t.sessions, router := t.router)
  {
    var sid := s.sessions[k].sid;
    var t := if sid !in s.router || s.router[sid] >= |s.sessions| then s
             else
               var ss := s.sessions[s.router[sid]];
               SetSession(s, s.router[sid], ss.(box := Shut(ss.box))).(router := s.router - {sid});
    SetSession(t, k, t.sessions[k].(stage := Gone))
  }

  predicate Is(s: State, k: nat, service: bool, stage: Stage) {
    k < |s.sessions| && s.sessions[k].request.Some? == service && s.sessions[k].stage == stage
  }

  /** One step; None when it is not enabled. After a crash nothing is. */
  function Next(s: State, a: Action): Option<State> {
    if s.crashed then None
    else match a
      case Connect(device, bufSize) => Some(Registered(s, device, bufSize))
      case Disconnect(c) =>
        if Current(s, c) then
          var t := CloseOutbound(s, c);
          Some(t.(reg := t.reg - {s.conns[c].device}))
        else None
      case OnLink(c, la) => if la.Accept? || la.Read? || la.Shut? then None else OnConn(s, c, la)
      case Route(c) =>
        (match OnConn(s, c, Link.Read)
         case Some(t) =>
           if s.conns[c].up != []
           then Some(Delivered(Heard(t, c, s.conns[c].up[0]), s.conns[c].up[0])) else None
         case None => None)
      case Mint(sid, device) => if sid == "" || sid in s.owner then None
        else Some(s.(owner := s.owner[sid := Owner(device, false)], opens := s.opens + multiset{sid}))
      case _ => if Operator(a) then NextOperator(s, a) else NextService(s, a)
  }

  predicate Operator(a: Action) {
    a.Attach? || a.FromOperator? || a.OperatorTake? || a.EndSession? || a.EmitClose? || a.Detach?
  }

  function NextOperator(s: State, a: Action): Option<State> {
    match a
    case Attach(sid, c) =>
      if sid !in s.owner || s.owner[sid].service || c >= |s.conns| || s.conns[c].device != s.owner[sid].device then None
      else if sid in s.router then Some(s)
      else
        var ss := Session(sid, c, None, FRESH, [], Live, None, true, |s.read|, None);
        Some(Attached(s, ss).(attaches := s.attaches + multiset{sid}))
    case FromOperator(k, f) =>
      if k >= |s.sessions| || s.sessions[k].request.Some? || !s.sessions[k].reading then None
      else if s.sessions[k].conn >= |s.conns| then None
      else if Stamp(f, s.sessions[k].sid).None? then Some(s)
      else Some(Forward(s, k, Stamp(f, s.sessions[k].sid).value))
    case OperatorTake(k) =>
      if !Is(s, k, false, Live) || s.sessions[k].box.queue == [] then None
      else Some(SetSession(s, k, Took(s.sessions[k])))
    case EndSession(k) =>
      if !Is(s, k, false, Live) then None
      else
        var ss := s.sessions[k];
        Some(SetSession(TrySend(s, ss.conn, Teardown(ss.sid, "")), k, ss.(stage := Leaving)))
    case EmitClose(k) =>
      if !Is(s, k, false, Leaving) then None
      else Some(SetSession(s, k, s.sessions[k].(stage := Ended)).(closes := s.closes + multiset{s.sessions[k].sid}))
    case Detach(k) => if k < |s.sessions| && s.sessions[k].stage.Ended? then Some(Detached(s, k)) else None
    case _ => None
  }

  /** The operator's pump hands a frame to Send: a full channel ends the pump, a closed one
      panics outside any handler, which ends the process. */
  function Forward(s: State, k: nat, g: Frame): (t: State)
    requires k < |s.sessions| && s.sessions[k].conn < |s.conns|
    ensures t == s.(conns := t.conns, sessions := t.sessions, crashed := t.crashed)
  {
    var ss := s.sessions[k];
    var c := s.conns[ss.conn];
    var t := TrySend(s, ss.conn, g);
    if !c.open then t.(crashed := true)
    else if |c.outbound| >= c.bufSize then SetSession(t, k, ss.(reading := false))
    else t
  }

  function Took(ss: Session): Session
    requires ss.box.queue != []
  {
    ss.(box := ss.box.(queue := ss.box.queue[1..]), taken := ss.taken + [ss.box.queue[0]])
  }

  function NextService(s: State, a: Action): Option<State> {
    match a
    case ServiceStart(c, sid, eid, req) =>
      if c >= |s.conns| || sid == "" || eid == "" || sid in s.owner || (req.argv == [] && req.script.None?) then None
      else
        var f := ServiceFrame(sid, eid, req);
        var ss := Session(sid, c, Some(f), FRESH, [], Starting, None, false, |s.read|, Some(req));
        Some(Attached(s, ss).(owner := s.owner[sid := Owner(s.conns[c].device, true)]))
    case ServiceSend(k) =>
      if !Is(s, k, true, Starting) || s.sessions[k].conn >= |s.conns| then None else Some(HandOver(s, k))
    case ServiceTake(k) =>
      if !Is(s, k, true, Live) || s.sessions[k].box.queue == [] then None
      else Some(SetSession(s, k, Consumed(s.sessions[k])))
    case ServiceTimeout(k) =>
      if !Is(s, k, true, Live) || s.sessions[k].conn >= |s.conns| then None else Some(GiveUp(s, k))
    case ServiceClosed(k) =>
      if !Is(s, k, true, Live) || !s.sessions[k].box.closed then None
      else Some(SetSession(s, k, Done(s.sessions[k], SawClose(Partial(s.sessions[k].taken)))))
    case _ => None
  }

  function Done(ss: Session, e: Ending): Session { ss.(stage := Ended, ending := Some(e)) }

  /** The exec frame goes to Send; a full channel is answered 503, a closed one panics. */
  function HandOver(s: State, k: nat): State
    requires k < |s.sessions| && s.sessions[k].request.Some? && s.sessions[k].conn < |s.conns|
  {
    var ss := s.sessions[k];
    var c := s.conns[ss.conn];
    SetSession(TrySend(s, ss.conn, ss.request.value), k,
               if !c.open then Done(ss, Panicked)
               else if |c.outbound| >= c.bufSize then Done(ss, Unsent)
               else ss.(stage := Live))
  }

  /** One frame for collectExecResult. */
  function Consumed(ss: Session): Session
    requires ss.box.queue != []
  {
    var t := Took(ss);
    var c := Collect(t.taken);
    if c.res.Some? then Done(t, Exited(c.res.value)) else t
  }

  /** The deadline passed: the agent is told to stop. */
  function GiveUp(s: State, k: nat): State
    requires k < |s.sessions| && s.sessions[k].request.Some? && s.sessions[k].conn < |s.conns|
  {
    var ss := s.sessions[k];
    SetSession(TrySend(s, ss.conn, Teardown(ss.sid, ss.request.value.eid)), k,
               Done(ss, if !s.conns[ss.conn].open then Panicked else TimedOut(Partial(ss.taken))))
  }

  /** A step is any enabled action. */
  ghost predicate Steps(s: State, t: State) { exists a: Action :: Next(s, a) == Some(t) }

  /** A run: the states passed through, from INIT on. */
  ghost predicate IsRun(run: seq<State>) { Runs.IsRun(run, INIT, Steps) }

  /** The state the run has reached. */
  function Now(run: seq<State>): State { Runs.Now(run, INIT) }

  /** A run but for its last step, and that step. */
  lemma Shorter(run: seq<State>) returns (a: Action)
    requires IsRun(run) && |run| > 1
    ensures IsRun(run[..|run| - 1]) && Next(Now(run[..|run| - 1]), a) == Some(Now(run))
  {
    hide Next;
    Runs.Shorter(run, INIT, Steps);
    assert Steps(Now(run[..|run| - 1]), Now(run));
    a :| Next(Now(run[..|run| - 1]), a) == Some(Now(run));
  }
}
