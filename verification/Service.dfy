/** A service call from end to end, in every run: its exec frame reaches the agent at most
    once, the agent's answer comes back whole and in order, and nothing else does. */
module Service {
  import opened Prelude
  import opened Exec
  import opened Routing
  import opened System
  import opened SystemShape
  import opened SystemInv
  import opened Isolation
  import AgentLoop
  import Link
  import AgentStops

  predicate IsService(s: State, k: nat) {
    k < |s.sessions| && s.sessions[k].request.Some? && s.sessions[k].conn < |s.conns|
  }

  function ConnOf(s: State, k: nat): Link.Conn
    requires IsService(s, k)
  {
    s.conns[s.sessions[k].conn]
  }

  /** The well-formed exec requests of the session that Send has accepted. */
  function Asked(s: State, k: nat): seq<Frame>
    requires IsService(s, k)
  {
    Link.Pick(ConnOf(s, k).sentDown, s.sessions[k].sid, true)
  }

  /** What the relay has read of the session's frames. */
  function Read(s: State, k: nat): seq<Frame>
    requires IsService(s, k)
  {
    Link.Pick(ConnOf(s, k).routed, s.sessions[k].sid, false)
  }

  /** Where the call stands, by its own record alone. */
  predicate CallOk(ss: Session) {
    && (ss.box.closed ==> ss.stage.Gone?)
    && (ss.stage.Starting? || ss.stage.Live? ==> ss.ending.None? && Collect(ss.taken).res.None?)
    && (ss.stage.Ended? || ss.stage.Gone? ==>
          match ss.ending
          case Some(Exited(res)) => Collect(ss.taken).res == Some(res) && Link.EndsInExit(ss.taken)
          case Some(TimedOut(res)) => res == Partial(ss.taken) && Collect(ss.taken).res.None?
          case Some(SawClose(_)) => false
          case Some(_) => true
          case None => false)
    && !ss.stage.Leaving?
  }

  /** Cancels of the session were accepted after its request. */
  ghost predicate CancelsLater(sentDown: seq<Frame>, sid: string, f: Frame) {
    forall g :: g in sentDown && g.sid == sid && g.kind.Cancel? ==> AgentStops.Before(sentDown, f, g)
  }

  ghost predicate CallInv(s: State, k: nat)
    requires IsService(s, k)
  {
    var ss := s.sessions[k];
    && (Asked(s, k) == [] || Asked(s, k) == [ss.request.value])
    && (ss.stage.Starting? ==> Asked(s, k) == []) && (ss.stage.Live? ==> Asked(s, k) == [ss.request.value])
    && CancelsLater(ConnOf(s, k).sentDown, ss.sid, ss.request.value)
    && Log(ss) <= Read(s, k) && (!ss.stage.Gone? ==> Log(ss) == Read(s, k))
    && CallOk(ss)
  }

  /* ---- One step ---- */

  /** How a step can change the record of service call k. */
  ghost predicate Moves(s: State, a: Action, k: nat, x: Session, y: Session) {
    if y == x then true
    else match a
      case Route(c) =>
        && c < |s.conns| && s.conns[c].up != [] && s.conns[c].up[0].sid == x.sid
        && y == x.(box := Offer(x.box, s.conns[c].up[0]))
      case Detach(_) => x.stage.Ended? && y == x.(box := Shut(x.box), stage := Gone)
      case ServiceSend(_) =>
        x.stage.Starting? && (y == x.(stage := Live) || y == Done(x, Panicked) || y == Done(x, Unsent))
      case ServiceTake(_) => x.stage.Live? && x.box.queue != [] && y == Consumed(x)
      case ServiceTimeout(_) => x.stage.Live? && (y == Done(x, Panicked) || y == Done(x, TimedOut(Partial(x.taken))))
      case ServiceClosed(_) => x.stage.Live? && x.box.closed && y == Done(x, SawClose(Partial(x.taken)))
      case _ => false
  }

  lemma OperatorMoves(s: State, a: Action, t: State, k: nat)
    requires RouterInv(s) && NextOperator(s, a) == Some(t) && k < |s.sessions| && s.sessions[k].request.Some?
    ensures k < |t.sessions| && Moves(s, a, k, s.sessions[k], t.sessions[k])
  {
    hide TrySend, Stamp, RouterInv, Teardown, Detached, Partial, Consumed, Shut;
    if a.Detach? {
      DetachesOwn(s, a.k);
    }
  }

  lemma ServiceMoves(s: State, a: Action, t: State, k: nat)
    requires NextService(s, a) == Some(t) && k < |s.sessions|
    ensures k < |t.sessions| && Moves(s, a, k, s.sessions[k], t.sessions[k])
  {
    hide TrySend, Teardown, Partial, Consumed, ServiceFrame, Done;
  }

  lemma RelayMoves(s: State, a: Action, t: State, k: nat)
    requires RouterInv(s) && !Operator(a) && !Service(a) && Next(s, a) == Some(t) && k < |s.sessions|
    ensures k < |t.sessions| && Moves(s, a, k, s.sessions[k], t.sessions[k])
  {
    hide OnConn, Registered, Offer;
    if a.Connect? {
      RegisteredSessions(s, a.device, a.bufSize);
    }
  }

  lemma StepMoves(s: State, a: Action, t: State, k: nat)
    requires RouterInv(s) && Next(s, a) == Some(t) && k < |s.sessions| && s.sessions[k].request.Some?
    ensures k < |t.sessions| && Moves(s, a, k, s.sessions[k], t.sessions[k])
  {
    hide NextOperator, NextService, Moves, RouterInv;
    if Operator(a) {
      OperatorMoves(s, a, t, k);
    } else if Service(a) {
      ServiceMoves(s, a, t, k);
    } else {
      RelayMoves(s, a, t, k);
    }
  }

  /** The call's own record stays in order as long as its channel is not full. */
  lemma CallOkStep(s: State, a: Action, k: nat, x: Session, y: Session)
    requires CallOk(x) && Moves(s, a, k, x, y) && (a.Route? && y != x ==> |x.box.queue| < TO_BROWSER)
    ensures CallOk(y)
  {
    hide Collect;
    if a.ServiceTake? && y != x {
      TakeOk(x);
    }
  }

  /** Taking a frame ends the wait exactly when it is the exit. */
  lemma TakeOk(x: Session)
    requires CallOk(x) && x.stage.Live? && x.box.queue != []
    ensures CallOk(Consumed(x))
  {
    hide Collect, DecodeOutput;
    CollectSnoc(x.taken, x.box.queue[0]);
  }

  /* ---- Down: the request is accepted at most once ---- */

  /** Nobody but call k sends frames of its session, and those are its request and cancels. */
  lemma OnlyOwnFrames(s: State, k: nat, c: nat, f: Frame)
    requires OwnerInv(s) && SendInv(s) && IsService(s, k) && c < |s.conns| && f in s.conns[c].sentDown
             && f.sid == s.sessions[k].sid
    ensures c == s.sessions[k].conn && (f == s.sessions[k].request.value || f.kind.Cancel?)
  {
    hide OwnedBy;
    assert AllStamped(s, c, s.conns[c].sentDown);
    assert Stamped(s, c, f);
    var j :| 0 <= j < |s.sessions| && BySession(s.sessions[j], c, f);
  }

  /** The exec a step hands to Send for the session is the request, on its way out of Starting. */
  lemma SubmitsOnce(s: State, a: Action, t: State, k: nat)
    requires OwnerInv(s) && IsService(s, k) && Next(s, a) == Some(t) && t.conns != s.conns
    requires Touch(s, a).Touched? && Touch(s, a).la.Accept? && Link.Picked(Touch(s, a).la.f, s.sessions[k].sid, true)
    ensures Touch(s, a).la.f == s.sessions[k].request.value && s.sessions[k].stage.Starting?
    ensures k < |t.sessions| && !t.sessions[k].stage.Starting?
  {
    hide Link.Next, Consumed, AgentLoop.ValidExec;
    assert OwnedBy(s, s.sessions[a.k]);
    assert a.k == k;
    SendShape(s, s.sessions[k].conn, Touch(s, a).la.f);
    CancelIsNotExec(Teardown(s.sessions[k].sid, s.sessions[k].request.value.eid));
  }

  lemma CancelIsNotExec(f: Frame)
    ensures f.kind.Cancel? ==> !AgentLoop.ValidExec(f)
  {
  }

  /** Going Live means the request was accepted. */
  lemma LiveIsAccepted(s: State, a: Action, t: State, k: nat)
    requires IsService(s, k) && Next(s, a) == Some(t) && IsService(t, k)
    requires s.sessions[k].stage.Starting? && t.sessions[k].stage.Live? && a.ServiceSend?
    ensures ConnOf(t, k).sentDown == ConnOf(s, k).sentDown + [s.sessions[k].request.value]
  {
    hide Link.AgentNext, Consumed;
    if a.k == k {
      assert t == HandOver(s, k);
    }
  }

  lemma AskedStep(s: State, a: Action, t: State, k: nat)
    requires Isolation.Inv(s) && IsService(s, k) && CallInv(s, k) && Next(s, a) == Some(t)
    ensures IsService(t, k)
    ensures Asked(t, k) == [] || Asked(t, k) == [s.sessions[k].request.value]
    ensures t.sessions[k].stage.Starting? ==> Asked(t, k) == []
    ensures t.sessions[k].stage.Live? ==> Asked(t, k) == [s.sessions[k].request.value]
  {
    hide Next, Link.Next, Touch, Link.Pick, RouterInv, ConnsInv, SendInv, LogInv, OwnerInv, RegInv, CloseInv;
    hide CancelsLater, CallOk, Read;
    StepShape(s, a, t);
    StepGrows(s, a, t);
    StepMoves(s, a, t, k);
    SentGrows(s, a, t, s.sessions[k].conn);
    var c, sid, f := s.sessions[k].conn, s.sessions[k].sid, s.sessions[k].request.value;
    if t.conns[c].sentDown != s.conns[c].sentDown {
      var th := Touch(s, a);
      Link.PickConcat(s.conns[c].sentDown, [th.la.f], sid, true);
      Link.PickOne(th.la.f, sid, true);
      if Link.Picked(th.la.f, sid, true) {
        SubmitsOnce(s, a, t, k);
      }
    }
    if s.sessions[k].stage.Starting? && t.sessions[k].stage.Live? {
      LiveIsAccepted(s, a, t, k);
      RequestIsPicked(s, k);
      Link.PickConcat(s.conns[c].sentDown, [f], sid, true);
      Link.PickOne(f, sid, true);
    }
  }

  lemma RequestIsPicked(s: State, k: nat)
    requires OwnerInv(s) && IsService(s, k)
    ensures Link.Picked(s.sessions[k].request.value, s.sessions[k].sid, true)
  {
    hide AgentLoop.ValidExec;
    assert OwnedBy(s, s.sessions[k]);
  }

  /** What Send has accepted on a connection grows by at most the frame the step submits. */
  lemma SentGrows(s: State, a: Action, t: State, c: nat)
    requires Next(s, a) == Some(t) && c < |s.conns|
    ensures c < |t.conns|
    ensures t.conns[c].sentDown == s.conns[c].sentDown
            || (Touch(s, a).Touched? && Touch(s, a).la.Accept? && Touch(s, a).c == c && t.conns != s.conns
                && t.conns[c].sentDown == s.conns[c].sentDown + [Touch(s, a).la.f])
  {
    hide Next, Link.Next, Touch;
    StepShape(s, a, t);
    if t.conns[c] != s.conns[c] {
      LinkLater(s.conns[c], Touch(s, a).la, t.conns[c]);
    }
  }

  /** Only a call that has handed its request over cancels it. */
  lemma CancelsOwnLive(s: State, a: Action, t: State, k: nat)
    requires OwnerInv(s) && IsService(s, k) && Next(s, a) == Some(t)
    requires Touch(s, a).Touched? && Touch(s, a).la.Accept? && Touch(s, a).la.f.kind.Cancel?
             && Touch(s, a).la.f.sid == s.sessions[k].sid
    ensures s.sessions[k].stage.Live?
  {
    hide Link.Next, Consumed, GiveUp;
    assert OwnedBy(s, s.sessions[a.k]);
    assert a.k == k;
  }

  lemma CancelsLaterStep(s: State, a: Action, t: State, k: nat)
    requires Isolation.Inv(s) && IsService(s, k) && CallInv(s, k) && Next(s, a) == Some(t) && IsService(t, k)
    ensures CancelsLater(ConnOf(t, k).sentDown, s.sessions[k].sid, s.sessions[k].request.value)
  {
    hide Next, Link.Next, Touch, RouterInv, ConnsInv, SendInv, LogInv, OwnerInv, RegInv, CloseInv, CallOk, Read;
    hide AgentStops.Before;
    var c, ss := s.sessions[k].conn, s.sessions[k];
    StepGrows(s, a, t);
    SentGrows(s, a, t, c);
    if t.conns[c].sentDown != s.conns[c].sentDown {
      var f := Touch(s, a).la.f;
      if f.kind.Cancel? && f.sid == ss.sid {
        CancelsOwnLive(s, a, t, k);
        Link.PickMembers(s.conns[c].sentDown, ss.sid, true);
        assert ss.request.value in Asked(s, k);
      }
      forall g | g in t.conns[c].sentDown && g.sid == ss.sid && g.kind.Cancel?
        ensures AgentStops.Before(t.conns[c].sentDown, ss.request.value, g)
      {
        AgentStops.BeforeSnoc(s.conns[c].sentDown, f, ss.request.value, g);
      }
    }
  }

  /* ---- Up: the answer is read in order, and fits the channel ---- */

  lemma RequestIsOnly(s: State, k: nat)
    requires Isolation.Inv(s) && IsService(s, k) && CallInv(s, k)
    ensures Link.OnlyRequest(ConnOf(s, k), s.sessions[k].request.value)
    ensures s.sessions[k].request.value.sid == s.sessions[k].sid != ""
  {
    hide Next, Link.Pick, RouterInv, ConnsInv, LogInv, RegInv, CloseInv, AgentLoop.ValidExec, SendInv;
    var ss, c := s.sessions[k], ConnOf(s, k);
    assert OwnedBy(s, ss);
    forall i | 0 <= i < |c.sentDown|
      ensures !(c.sentDown[i].kind.PtyStart? && c.sentDown[i].sid == ss.sid)
    {
      if c.sentDown[i].sid == ss.sid {
        OnlyOwnFrames(s, k, ss.conn, c.sentDown[i]);
        ExecIsNotShell(ss.request.value);
      }
    }
  }

  lemma ExecIsNotShell(f: Frame)
    ensures AgentLoop.ValidExec(f) ==> f.kind.ExecStart? && f.sid != ""
  {
  }

  /** What was read, and what is still on the wire, is part of one trace of the grammar. */
  lemma ReadIsTrace(s: State, k: nat)
    requires Isolation.Inv(s) && IsService(s, k) && CallInv(s, k)
    ensures var c, f := ConnOf(s, k), s.sessions[k].request.value;
            && Link.AllSent(c, f.sid)
               == Read(s, k) + Link.Pick(c.up, f.sid, false) + Link.Pick(Link.Sent(c.agent.out), f.sid, false)
            && exists whole :: Grammar(f, whole) && Link.AllSent(c, f.sid) <= whole
  {
    hide Next, Link.Pick, RouterInv, LogInv, OwnerInv, RegInv, CloseInv, AgentLoop.ValidExec, SendInv, AgentLoop.Inv;
    hide Grammar, Link.OnlyRequest, CallInv;
    RequestIsOnly(s, k);
    var c, f := ConnOf(s, k), s.sessions[k].request.value;
    assert Link.Inv(c);
    assert Link.Flow(c, f.sid);
    Link.SessionGrammar(c, f);
  }

  /** A frame of the session about to be read comes from the session's own connection, is of a
      routed kind, and finds room: at most four frames ever come. */
  lemma HeadFits(s: State, k: nat, c: nat)
    requires Isolation.Inv(s) && IsService(s, k) && CallInv(s, k)
    requires c < |s.conns| && s.conns[c].up != [] && s.conns[c].up[0].sid == s.sessions[k].sid
    ensures c == s.sessions[k].conn && Routable(s.conns[c].up[0]) && |Read(s, k)| < 4
  {
    hide Next, Link.Pick, RouterInv, LogInv, OwnerInv, RegInv, CloseInv, AgentLoop.ValidExec, SendInv, AgentLoop.Inv;
    hide CallInv;
    var f, head, sid := s.sessions[k].request.value, s.conns[c].up[0], s.sessions[k].sid;
    RequestIsOnly(s, k);
    assert Link.Inv(s.conns[c]);
    Link.EveryFrameCaused(s.conns[c], head);
    var i :| 0 <= i < |s.conns[c].sentDown| && s.conns[c].sentDown[i].sid == sid;
    OnlyOwnFrames(s, k, c, s.conns[c].sentDown[i]);
    ReadIsTrace(s, k);
    var whole :| Grammar(f, whole) && Link.AllSent(s.conns[c], sid) <= whole;
    Link.PickHead(s.conns[c].up, sid, false);
    assert Link.AllSent(s.conns[c], sid)[|Read(s, k)|] == head;
    assert whole[|Read(s, k)|] == head;
    GrammarKinds(f, whole, |Read(s, k)|);
  }

  lemma GrammarKinds(f: Frame, whole: seq<Frame>, i: nat)
    requires Grammar(f, whole) && i < |whole| && f.sid != ""
    ensures Routable(whole[i]) && i < 4
  {
  }

  lemma ReadStep(s: State, a: Action, t: State, k: nat)
    requires Isolation.Inv(s) && IsService(s, k) && CallInv(s, k) && Next(s, a) == Some(t) && IsService(t, k)
    ensures Log(t.sessions[k]) <= Read(t, k) && (!t.sessions[k].stage.Gone? ==> Log(t.sessions[k]) == Read(t, k))
    ensures a.Route? && t.sessions[k] != s.sessions[k] ==> |s.sessions[k].box.queue| < TO_BROWSER
  {
    hide Next, Link.Next, Touch, Link.Pick, ConnsInv, SendInv, LogInv, OwnerInv, RegInv, CloseInv, CallOk, Asked;
    hide Routable;
    StepShape(s, a, t);
    StepLogs(s, a, t);
    StepMoves(s, a, t, k);
    var c, sid := s.sessions[k].conn, s.sessions[k].sid;
    if a.Route? && a.c < |s.conns| && s.conns[a.c].up != [] && s.conns[a.c].up[0].sid == sid {
      HeadFits(s, k, a.c);
    }
    ReadGrows(s, a, t, k);
  }

  lemma ReadGrows(s: State, a: Action, t: State, k: nat)
    requires IsService(s, k) && Next(s, a) == Some(t) && IsService(t, k)
    ensures var c := s.sessions[k].conn;
            Read(t, k) == Read(s, k) + if a.Route? && a.c == c && s.conns[c].up != []
                                          && s.conns[c].up[0].sid == s.sessions[k].sid
                                       then [s.conns[c].up[0]] else []
  {
    hide Next, Link.Next, Touch, Link.Pick;
    StepShape(s, a, t);
    var c, sid := s.sessions[k].conn, s.sessions[k].sid;
    assert Read(s, k) + [] == Read(s, k);
    var th := Touch(s, a);
    ReadsOnlyWhenRouting(s, a, t);
    if t.conns[c] != s.conns[c] {
      LinkLater(s.conns[c], th.la, t.conns[c]);
      if th.la.Read? {
        Link.PickConcat(s.conns[c].routed, [s.conns[c].up[0]], sid, false);
        Link.PickOne(s.conns[c].up[0], sid, false);
      }
    } else if a.Route? && a.c == c {
      ReadChanges(s, c, t);
    }
  }

  lemma ReadsOnlyWhenRouting(s: State, a: Action, t: State)
    requires Next(s, a) == Some(t)
    ensures Touch(s, a).Touched? && Touch(s, a).la.Read? <==> a.Route?
    ensures a.Route? ==> Touch(s, a).c == a.c && a.c < |s.conns| && s.conns[a.c].up != []
  {
    hide Link.Next, NextOperator, NextService, Stamp;
  }

  lemma ReadChanges(s: State, c: nat, t: State)
    requires Next(s, Route(c)) == Some(t) && c < |t.conns| && c < |s.conns|
    ensures t.conns[c] != s.conns[c]
  {
    assert |t.conns[c].routed| == |s.conns[c].routed| + 1;
  }

  lemma CallStep(s: State, a: Action, t: State, k: nat)
    requires Isolation.Inv(s) && IsService(s, k) && CallInv(s, k) && Next(s, a) == Some(t)
    ensures IsService(t, k) && CallInv(t, k)
  {
    hide Next, Isolation.Inv, Asked, Read, CallOk, Moves, CancelsLater;
    AskedStep(s, a, t, k);
    CancelsLaterStep(s, a, t, k);
    ReadStep(s, a, t, k);
    RouterOf(s);
    StepMoves(s, a, t, k);
    CallOkStep(s, a, k, s.sessions[k], t.sessions[k]);
    StepGrows(s, a, t);
  }

  lemma RouterOf(s: State)
    requires Isolation.Inv(s)
    ensures RouterInv(s) && OwnerInv(s) && SendInv(s) && ConnsInv(s)
  {
  }

  /* ---- Every call, in every run ---- */

  ghost predicate CallsInv(s: State) {
    forall k: nat :: IsService(s, k) ==> CallInv(s, k)
  }

  /** No frame on any connection bears an id that has not been issued. */
  lemma UnissuedUnused(s: State, sid: string, c: nat)
    requires Isolation.Inv(s) && sid != "" && sid !in s.owner && c < |s.conns|
    ensures forall g :: g in s.conns[c].sentDown ==> g.sid != sid
    ensures Link.Pick(s.conns[c].sentDown, sid, true) == [] && Link.Pick(s.conns[c].routed, sid, false) == []
  {
    hide RouterInv, LogInv, RegInv, CloseInv, Link.Inv, AgentLoop.ValidExec, Link.Pick;
    var conn := s.conns[c];
    forall i | 0 <= i < |conn.sentDown|
      ensures conn.sentDown[i].sid != sid
    {
      assert AllStamped(s, c, conn.sentDown);
      assert Stamped(s, c, conn.sentDown[i]);
      var j :| 0 <= j < |s.sessions| && BySession(s.sessions[j], c, conn.sentDown[i]);
      assert OwnedBy(s, s.sessions[j]);
    }
    forall i | 0 <= i < |conn.routed|
      ensures conn.routed[i].sid != sid
    {
      if conn.routed[i].sid == sid {
        Link.EveryFrameCaused(conn, conn.routed[i]);
      }
    }
    Link.PickNone(conn.sentDown, sid, true);
    Link.PickNone(conn.routed, sid, false);
  }

  lemma NewCall(s: State, a: Action, t: State)
    requires Isolation.Inv(s) && Next(s, a) == Some(t) && a.ServiceStart?
    ensures |t.sessions| == |s.sessions| + 1 && IsService(t, |s.sessions|) && CallInv(t, |s.sessions|)
  {
    hide Isolation.Inv, Link.Pick, ServiceFrame;
    UnissuedUnused(s, a.sid, a.c);
  }

  lemma CallsStep(s: State, a: Action, t: State)
    requires Isolation.Inv(s) && CallsInv(s) && Next(s, a) == Some(t)
    ensures CallsInv(t)
  {
    hide Next, Isolation.Inv, CallInv, RouterInv, SendInv, ConnsInv, Touch, Step;
    StepShape(s, a, t);
    RouterOf(s);
    forall k: nat | IsService(t, k)
      ensures CallInv(t, k)
    {
      if k < |s.sessions| {
        assert OwnedBy(s, s.sessions[k]);
        CallStep(s, a, t, k);
      } else {
        assert t.sessions[|s.sessions|..][k - |s.sessions|] == t.sessions[k];
        NewCall(s, a, t);
      }
    }
  }

  lemma {:induction false} RunCalls(run: seq<State>)
    requires IsRun(run)
    ensures Isolation.Inv(Now(run)) && CallsInv(Now(run))
    decreases |run|
  {
    hide Next, Isolation.Inv;
    RunInv(run);
    if |run| > 1 {
      var a := Shorter(run);
      RunCalls(run[..|run| - 1]);
      CallsStep(Now(run[..|run| - 1]), a, Now(run));
    }
  }
}
