/** What one step of the system can change: at most one link takes one step, at most one
    session changes or is added, and nothing already recorded is forgotten. */
module SystemShape {
  import opened Prelude
  import opened Exec
  import opened Routing
  import opened System
  import AgentLoop
  import Link

  datatype Touched = Nothing | Touched(c: nat, la: Link.LinkAction)

  /** The link step the action attempts. */
  function Touch(s: State, a: Action): Touched {
    match a
    case Connect(device, _) => if device in s.reg then Touched(s.reg[device], Link.Shut) else Nothing
    case Disconnect(c) => Touched(c, Link.Shut)
    case OnLink(c, la) => Touched(c, la)
    case Route(c) => Touched(c, Link.Read)
    case FromOperator(k, f) =>
      if k < |s.sessions| && Stamp(f, s.sessions[k].sid).Some?
      then Touched(s.sessions[k].conn, Link.Accept(Stamp(f, s.sessions[k].sid).value)) else Nothing
    case EndSession(k) =>
      if k < |s.sessions| then Touched(s.sessions[k].conn, Link.Accept(Teardown(s.sessions[k].sid, ""))) else Nothing
    case ServiceSend(k) =>
      if k < |s.sessions| && s.sessions[k].request.Some?
      then Touched(s.sessions[k].conn, Link.Accept(s.sessions[k].request.value)) else Nothing
    case ServiceTimeout(k) =>
      if k < |s.sessions| && s.sessions[k].request.Some?
      then Touched(s.sessions[k].conn, Link.Accept(Teardown(s.sessions[k].sid, s.sessions[k].request.value.eid)))
      else Nothing
    case _ => Nothing
  }

  function Step(conns: seq<Link.Conn>, th: Touched): seq<Link.Conn> {
    if th.Touched? && th.c < |conns| && Link.Next(conns[th.c], th.la).Some?
    then conns[th.c := Link.Next(conns[th.c], th.la).value] else conns
  }

  predicate SameCall(x: Session, y: Session) {
    x.sid == y.sid && x.conn == y.conn && x.request == y.request && x.since == y.since && x.call == y.call
  }

  /** The session the action adds, if any. */
  function Added(s: State, a: Action): seq<Session> {
    match a
    case Attach(sid, c) =>
      if sid in s.router then [] else [Session(sid, c, None, FRESH, [], Live, None, true, |s.read|, None)]
    case ServiceStart(c, sid, eid, req) =>
      [Session(sid, c, Some(ServiceFrame(sid, eid, req)), FRESH, [], Starting, None, false, |s.read|, Some(req))]
    case _ => []
  }

  ghost predicate Shape(s: State, a: Action, t: State) {
    && t.conns == Step(s.conns, Touch(s, a)) + (if a.Connect? then [Link.NewConn(a.device, a.bufSize)] else [])
    && |t.sessions| == |s.sessions| + |Added(s, a)| && t.sessions[|s.sessions|..] == Added(s, a)
    && (forall k :: 0 <= k < |s.sessions| ==> SameCall(s.sessions[k], t.sessions[k]))
    && (forall sid :: sid in s.owner ==> sid in t.owner && t.owner[sid] == s.owner[sid])
  }

  lemma OperatorShape(s: State, a: Action, t: State)
    requires NextOperator(s, a) == Some(t)
    ensures Shape(s, a, t)
  {
    hide Shape, NextOperator;
    if a.FromOperator? {
      ForwardShape(s, a, t);
    } else {
      HandlerShape(s, a, t);
    }
  }

  lemma HandlerShape(s: State, a: Action, t: State)
    requires NextOperator(s, a) == Some(t) && !a.FromOperator?
    ensures Shape(s, a, t)
  {
    hide NextOperator;
    HandlerConns(s, a, t);
    HandlerSessions(s, a, t);
    assert t.conns + [] == t.conns;
  }

  lemma HandlerConns(s: State, a: Action, t: State)
    requires NextOperator(s, a) == Some(t) && !a.FromOperator?
    ensures t.conns == Step(s.conns, Touch(s, a)) && t.owner == s.owner && !a.Connect?
  {
    hide Stamp, TrySend, Step, Forward, Detached, Attached, Took;
    StepNothing(s);
    if a.EndSession? {
      SendShape(s, Touch(s, a).c, Touch(s, a).la.f);
    }
  }

  lemma HandlerSessions(s: State, a: Action, t: State)
    requires NextOperator(s, a) == Some(t) && !a.FromOperator?
    ensures |t.sessions| == |s.sessions| + |Added(s, a)| && t.sessions[|s.sessions|..] == Added(s, a)
    ensures forall k :: 0 <= k < |s.sessions| ==> SameCall(s.sessions[k], t.sessions[k])
  {
    hide Stamp, TrySend, Forward, Teardown, Detached;
    if a.Detach? {
      DetachedSessions(s, a.k);
    }
  }

  lemma DetachedSessions(s: State, k: nat)
    requires k < |s.sessions|
    ensures var t := Detached(s, k);
            |t.sessions| == |s.sessions| && forall i :: 0 <= i < |s.sessions| ==> SameCall(s.sessions[i], t.sessions[i])
  {
    hide Routing.Shut;
  }

  lemma ForwardShape(s: State, a: Action, t: State)
    requires NextOperator(s, a) == Some(t) && a.FromOperator?
    ensures Shape(s, a, t)
  {
    hide Stamp, Link.Next, TrySend, Step;
    StepNothing(s);
    var th := Touch(s, a);
    if th.Touched? {
      SendShape(s, th.c, th.la.f);
    }
  }

  lemma ServiceShape(s: State, a: Action, t: State)
    requires NextService(s, a) == Some(t)
    ensures Shape(s, a, t)
  {
    hide Collect, ServiceFrame, Link.Next, TrySend, Step;
    StepNothing(s);
    var th := Touch(s, a);
    if th.Touched? {
      SendShape(s, th.c, th.la.f);
    }
  }

  lemma StepNothing(s: State)
    ensures Step(s.conns, Nothing) == s.conns
  {
  }

  /** Send changes the link it is given, and nothing at all when the channel is closed or full. */
  lemma SendShape(s: State, c: nat, f: Frame)
    ensures TrySend(s, c, f) == s.(conns := Step(s.conns, Touched(c, Link.Accept(f))))
    ensures c < |s.conns| && (!s.conns[c].open || |s.conns[c].outbound| >= s.conns[c].bufSize) ==>
              Step(s.conns, Touched(c, Link.Accept(f))) == s.conns
  {
  }

  lemma RelayShape(s: State, a: Action, t: State)
    requires !Operator(a) && !Service(a) && Next(s, a) == Some(t)
    ensures Shape(s, a, t)
  {
    hide Link.Next, Shape, Delivered, Registered, CloseOutbound, OnConn, Step;
    StepNothing(s);
    if a.Connect? || a.Disconnect? {
      RegistryShape(s, a, t);
    } else if a.Route? {
      RouteShape(s, a, t);
    } else {
      LinkShape(s, a, t);
    }
  }

  lemma RegistryShape(s: State, a: Action, t: State)
    requires (a.Connect? || a.Disconnect?) && Next(s, a) == Some(t)
    ensures Shape(s, a, t)
  {
    hide Link.Next, OnConn, Step, CloseOutbound;
    StepNothing(s);
    if Touch(s, a).Touched? {
      CloseShape(s, Touch(s, a).c);
    }
  }

  lemma RouteShape(s: State, a: Action, t: State)
    requires a.Route? && Next(s, a) == Some(t)
    ensures Shape(s, a, t)
  {
    hide Link.Next, OnConn, Step, Offer, Routable;
    ConnShape(s, a.c, Link.Read);
    assert t.conns + [] == t.conns;
  }

  lemma LinkShape(s: State, a: Action, t: State)
    requires (a.OnLink? || a.Mint?) && Next(s, a) == Some(t)
    ensures Shape(s, a, t)
  {
    hide Link.Next, OnConn, Step;
    StepNothing(s);
    if a.OnLink? {
      ConnShape(s, a.c, a.la);
    }
    assert t.conns + [] == t.conns;
  }

  lemma CloseShape(s: State, c: nat)
    ensures CloseOutbound(s, c).conns == Step(s.conns, Touched(c, Link.Shut))
  {
  }

  lemma ConnShape(s: State, c: nat, la: Link.LinkAction)
    requires OnConn(s, c, la).Some?
    ensures OnConn(s, c, la).value.conns == Step(s.conns, Touched(c, la))
  {
  }

  predicate Service(a: Action) {
    a.ServiceStart? || a.ServiceSend? || a.ServiceTake? || a.ServiceTimeout? || a.ServiceClosed?
  }

  lemma StepShape(s: State, a: Action, t: State)
    requires Next(s, a) == Some(t)
    ensures Shape(s, a, t)
  {
    hide NextOperator, NextService, Shape;
    if Operator(a) {
      OperatorShape(s, a, t);
    } else if Service(a) {
      ServiceShape(s, a, t);
    } else {
      RelayShape(s, a, t);
    }
  }

  /** A link keeps its device and what Send has accepted. */
  predicate Later(c: Link.Conn, d: Link.Conn) { c.device == d.device && c.sentDown <= d.sentDown }

  lemma LinkLater(c: Link.Conn, la: Link.LinkAction, d: Link.Conn)
    requires Link.Next(c, la) == Some(d)
    ensures Later(c, d)
    ensures d.sentDown == if la.Accept? then c.sentDown + [la.f] else c.sentDown
    ensures d.routed == if la.Read? && c.up != [] then c.routed + [c.up[0]] else c.routed
    ensures d.open == (if la.Shut? then false else c.open) && d.closes == (if la.Shut? then c.closes + 1 else c.closes)
  {
    hide AgentLoop.Next;
  }

  ghost predicate Grows(s: State, t: State) {
    && |s.conns| <= |t.conns| && (forall c :: 0 <= c < |s.conns| ==> Later(s.conns[c], t.conns[c]))
    && |s.sessions| <= |t.sessions| && (forall k :: 0 <= k < |s.sessions| ==> SameCall(s.sessions[k], t.sessions[k]))
    && (forall sid :: sid in s.owner ==> sid in t.owner && t.owner[sid] == s.owner[sid])
  }

  lemma StepGrows(s: State, a: Action, t: State)
    requires Next(s, a) == Some(t)
    ensures Grows(s, t)
  {
    hide Next, Link.Next, Touch, Added;
    StepShape(s, a, t);
    var th := Touch(s, a);
    forall c | 0 <= c < |s.conns|
      ensures Later(s.conns[c], t.conns[c])
    {
      if Step(s.conns, th)[c] != s.conns[c] {
        LinkLater(s.conns[c], th.la, t.conns[c]);
      }
    }
  }

  /* ---- Every link stays well-formed ---- */

  ghost predicate ConnsInv(s: State) { forall c :: 0 <= c < |s.conns| ==> Link.Inv(s.conns[c]) }

  lemma ConnsStep(s: State, a: Action, t: State)
    requires ConnsInv(s) && Next(s, a) == Some(t)
    ensures ConnsInv(t)
  {
    hide Next, Link.Next, Link.Inv, Touch;
    StepShape(s, a, t);
    var th := Touch(s, a);
    forall c | 0 <= c < |t.conns|
      ensures Link.Inv(t.conns[c])
    {
      if c == |s.conns| {
        Link.NewConnInv(a.device, a.bufSize);
      } else if Step(s.conns, th)[c] != s.conns[c] {
        Link.InvStep(s.conns[c], th.la, t.conns[c]);
      }
    }
  }
}
