/** Whose frames reach whom, in every run: each frame in a session's channel carries the
    session's id and answers a request sent under that id to the session's own device. */
module Isolation {
  import opened Prelude
  import opened Exec
  import opened Routing
  import opened System
  import opened SystemShape
  import opened SystemInv
  import AgentLoop
  import Link

  /* ---- Frames on their way down ---- */

  /** This session may have handed f to Send for connection c. */
  predicate BySession(ss: Session, c: nat, f: Frame) {
    && ss.sid == f.sid && ss.conn == c && Limited(f) && !f.kind.Ping?
    && (ss.request.Some? ==> f == ss.request.value || f.kind.Cancel?)
  }

  ghost predicate Stamped(s: State, c: nat, f: Frame) {
    exists k :: 0 <= k < |s.sessions| && BySession(s.sessions[k], c, f)
  }

  ghost predicate SendInv(s: State) {
    forall c :: 0 <= c < |s.conns| ==> AllStamped(s, c, s.conns[c].sentDown)
  }

  ghost predicate AllStamped(s: State, c: nat, fs: seq<Frame>) {
    forall i :: 0 <= i < |fs| ==> Stamped(s, c, fs[i])
  }

  lemma StampedGrows(s: State, t: State, c: nat, f: Frame)
    requires Stamped(s, c, f) && Grows(s, t)
    ensures Stamped(t, c, f)
  {
    var k :| 0 <= k < |s.sessions| && BySession(s.sessions[k], c, f);
    assert SameCall(s.sessions[k], t.sessions[k]);
    assert BySession(t.sessions[k], c, f);
  }

  /** Whatever a step hands to Send bears its own session's id, within the limits. */
  lemma SubmitsStamped(s: State, a: Action, t: State)
    requires OwnerInv(s) && Next(s, a) == Some(t) && Touch(s, a).Touched? && Touch(s, a).la.Accept?
    ensures Stamped(s, Touch(s, a).c, Touch(s, a).la.f)
  {
    hide Link.Next, Consumed, HandOver, GiveUp, Forward, Link.AgentNext;
    var f := Touch(s, a).la.f;
    var k := a.k;
    assert OwnedBy(s, s.sessions[k]);
    assert BySession(s.sessions[k], Touch(s, a).c, f);
  }

  lemma SendStep(s: State, a: Action, t: State)
    requires OwnerInv(s) && SendInv(s) && Next(s, a) == Some(t)
    ensures SendInv(t)
  {
    hide Next, Link.Next, Touch, Stamped;
    StepGrows(s, a, t);
    StepShape(s, a, t);
    var th := Touch(s, a);
    forall c, i | 0 <= c < |t.conns| && 0 <= i < |t.conns[c].sentDown|
      ensures Stamped(t, c, t.conns[c].sentDown[i])
    {
      if c < |s.conns| {
        if t.conns[c] != s.conns[c] {
          LinkLater(s.conns[c], th.la, t.conns[c]);
        }
        if i < |s.conns[c].sentDown| {
          assert AllStamped(s, c, s.conns[c].sentDown);
          StampedGrows(s, t, c, s.conns[c].sentDown[i]);
        } else {
          SubmitsStamped(s, a, t);
          StampedGrows(s, t, c, th.la.f);
        }
      }
    }
  }

  /* ---- Frames that reached a session ---- */

  /** All that was ever put in the session's channel, in order. */
  function Log(ss: Session): seq<Frame> { ss.taken + ss.box.queue }

  /** What the action adds to the log of session k. */
  function Got(s: State, a: Action, k: nat): seq<Frame> {
    if a.Route? && a.c < |s.conns| && s.conns[a.c].up != [] then
      var f := s.conns[a.c].up[0];
      if Routable(f) && f.sid in s.router && s.router[f.sid] == k && k < |s.sessions|
         && |s.sessions[k].box.queue| < TO_BROWSER
      then [f] else []
    else []
  }

  ghost predicate LogsGrow(s: State, a: Action, t: State) {
    && |s.sessions| <= |t.sessions|
    && (forall k :: 0 <= k < |s.sessions| ==> Log(t.sessions[k]) == Log(s.sessions[k]) + Got(s, a, k))
    && (forall k :: |s.sessions| <= k < |t.sessions| ==> Log(t.sessions[k]) == [])
  }

  lemma OneLog(s: State, a: Action, t: State, k: nat, y: Session)
    requires !a.Route? && k < |s.sessions| && t.sessions == s.sessions[k := y] && Log(y) == Log(s.sessions[k])
    ensures LogsGrow(s, a, t)
  {
  }

  lemma NewLog(s: State, a: Action, t: State)
    requires !a.Route? && |t.sessions| == |s.sessions| + 1 && s.sessions <= t.sessions
             && Log(t.sessions[|s.sessions|]) == []
    ensures LogsGrow(s, a, t)
  {
  }

  lemma OperatorLogs(s: State, a: Action, t: State)
    requires NextOperator(s, a) == Some(t)
    ensures LogsGrow(s, a, t)
  {
    hide NextOperator, LogsGrow;
    if a.Detach? {
      DetachLogs(s, a, t);
    } else if a.Attach? {
      AttachLogs(s, a, t);
    } else if a.FromOperator? {
      ForwardLogs(s, a, t);
    } else {
      HandlerLogs(s, a, t);
    }
  }

  lemma DetachLogs(s: State, a: Action, t: State)
    requires a.Detach? && NextOperator(s, a) == Some(t)
    ensures LogsGrow(s, a, t)
  {
    hide Detached;
    DetachedLogs(s, a.k);
  }

  lemma ForwardLogs(s: State, a: Action, t: State)
    requires NextOperator(s, a) == Some(t) && a.FromOperator?
    ensures LogsGrow(s, a, t)
  {
    hide NextOperator, Forward, LogsGrow;
    ForwardIs(s, a, t);
    if t == s {
      OneLog(s, a, t, a.k, s.sessions[a.k]);
    } else {
      ForwardReads(s, a.k, Stamp(a.f, s.sessions[a.k].sid).value);
      OneLog(s, a, t, a.k, t.sessions[a.k]);
    }
  }

  lemma HandlerLogs(s: State, a: Action, t: State)
    requires NextOperator(s, a) == Some(t) && !a.FromOperator? && !a.Attach? && !a.Detach?
    ensures LogsGrow(s, a, t)
  {
    hide TrySend, Teardown, LogsGrow;
    OneLog(s, a, t, a.k, t.sessions[a.k]);
  }

  lemma AttachLogs(s: State, a: Action, t: State)
    requires a.Attach? && NextOperator(s, a) == Some(t)
    ensures LogsGrow(s, a, t)
  {
    if t != s {
      NewLog(s, a, t);
    }
  }

  lemma DetachedLogs(s: State, k: nat)
    requires k < |s.sessions|
    ensures |Detached(s, k).sessions| == |s.sessions|
    ensures forall i :: 0 <= i < |s.sessions| ==> Log(Detached(s, k).sessions[i]) == Log(s.sessions[i])
  {
  }

  lemma ServiceLogs(s: State, a: Action, t: State)
    requires NextService(s, a) == Some(t)
    ensures LogsGrow(s, a, t)
  {
    hide TrySend, ServiceFrame, Teardown, Collect, LogsGrow;
    if a.ServiceStart? {
      NewLog(s, a, t);
    } else {
      OneLog(s, a, t, a.k, t.sessions[a.k]);
    }
  }

  lemma RelayLogs(s: State, a: Action, t: State)
    requires !Operator(a) && !Service(a) && Next(s, a) == Some(t)
    ensures LogsGrow(s, a, t)
  {
    hide OnConn, Registered, Routable, Delivered, CloseOutbound;
    assert forall k :: 0 <= k < |s.sessions| ==> Log(s.sessions[k]) + [] == Log(s.sessions[k]);
    if a.Connect? {
      RegisteredSessions(s, a.device, a.bufSize);
    } else if a.Route? {
      RouteLogs(s, a, t);
    }
  }

  lemma RouteLogs(s: State, a: Action, t: State)
    requires a.Route? && Next(s, a) == Some(t)
    ensures LogsGrow(s, a, t)
  {
    hide OnConn, Routable, Offer;
    assert forall k :: 0 <= k < |s.sessions| ==> Log(s.sessions[k]) + [] == Log(s.sessions[k]);
    var f := s.conns[a.c].up[0];
    forall k | 0 <= k < |s.sessions|
      ensures Log(t.sessions[k]) == Log(s.sessions[k]) + Got(s, a, k)
    {
      OfferLog(s.sessions[k], f);
    }
  }

  lemma OfferLog(ss: Session, f: Frame)
    ensures Log(ss.(box := Offer(ss.box, f))) == Log(ss) + (if |ss.box.queue| < TO_BROWSER then [f] else [])
  {
  }

  lemma RegisteredSessions(s: State, device: string, bufSize: nat)
    ensures Registered(s, device, bufSize).sessions == s.sessions
  {
    hide OnConn;
  }

  lemma StepLogs(s: State, a: Action, t: State)
    requires Next(s, a) == Some(t)
    ensures LogsGrow(s, a, t)
  {
    hide NextOperator, NextService, LogsGrow;
    if Operator(a) {
      OperatorLogs(s, a, t);
    } else if Service(a) {
      ServiceLogs(s, a, t);
    } else {
      RelayLogs(s, a, t);
    }
  }

  ghost predicate CausedOn(s: State, device: string, f: Frame) {
    exists c :: 0 <= c < |s.conns| && s.conns[c].device == device && Link.Caused(s.conns[c].sentDown, f)
  }

  /** The frame is the session's own. */
  ghost predicate Belongs(s: State, ss: Session, f: Frame) {
    ss.conn < |s.conns| && f.sid == ss.sid && CausedOn(s, s.conns[ss.conn].device, f)
  }

  ghost predicate LogInv(s: State) {
    forall k :: 0 <= k < |s.sessions| ==> AllBelong(s, s.sessions[k], Log(s.sessions[k]))
  }

  ghost predicate AllBelong(s: State, ss: Session, fs: seq<Frame>) {
    forall i :: 0 <= i < |fs| ==> Belongs(s, ss, fs[i])
  }

  lemma CausedGrows(a: seq<Frame>, b: seq<Frame>, f: Frame)
    requires a <= b && Link.Caused(a, f)
    ensures Link.Caused(b, f)
  {
    hide AgentLoop.ValidExec;
    var k :| 0 <= k < |a| && a[k].sid == f.sid
             && ((AgentLoop.ValidExec(a[k]) && a[k].eid == f.eid) || (a[k].kind.PtyStart? && f.eid == ""));
    assert b[k] == a[k];
  }

  lemma BelongsGrows(s: State, t: State, x: Session, y: Session, f: Frame)
    requires Grows(s, t) && SameCall(x, y) && Belongs(s, x, f)
    ensures Belongs(t, y, f)
  {
    hide Link.Caused;
    var c :| 0 <= c < |s.conns| && s.conns[c].device == s.conns[x.conn].device && Link.Caused(s.conns[c].sentDown, f);
    assert Later(s.conns[c], t.conns[c]) && Later(s.conns[x.conn], t.conns[x.conn]);
    CausedGrows(s.conns[c].sentDown, t.conns[c].sentDown, f);
  }

  /** A frame about to be routed to session k is k's own: the id under which it was asked
      for was issued for one device only. */
  lemma RoutedBelongs(s: State, c: nat, k: nat)
    requires ConnsInv(s) && RouterInv(s) && OwnerInv(s) && SendInv(s)
    requires c < |s.conns| && s.conns[c].up != [] && s.conns[c].up[0].sid != ""
    requires s.conns[c].up[0].sid in s.router && s.router[s.conns[c].up[0].sid] == k
    ensures k < |s.sessions| && Belongs(s, s.sessions[k], s.conns[c].up[0])
  {
    hide Link.Inv, AgentLoop.ValidExec;
    var f := s.conns[c].up[0];
    Link.EveryFrameCaused(s.conns[c], f);
    var i :| 0 <= i < |s.conns[c].sentDown| && s.conns[c].sentDown[i].sid == f.sid;
    assert AllStamped(s, c, s.conns[c].sentDown);
    assert Stamped(s, c, s.conns[c].sentDown[i]);
    var j :| 0 <= j < |s.sessions| && BySession(s.sessions[j], c, s.conns[c].sentDown[i]);
    assert OwnedBy(s, s.sessions[j]) && OwnedBy(s, s.sessions[k]);
  }

  lemma LogStep(s: State, a: Action, t: State)
    requires ConnsInv(s) && RouterInv(s) && OwnerInv(s) && SendInv(s) && LogInv(s) && Next(s, a) == Some(t)
    ensures LogInv(t)
  {
    hide Next, Belongs, Routable, ConnsInv, RouterInv, OwnerInv, SendInv, Got;
    StepLogs(s, a, t);
    StepGrows(s, a, t);
    forall k, i | 0 <= k < |t.sessions| && 0 <= i < |Log(t.sessions[k])|
      ensures Belongs(t, t.sessions[k], Log(t.sessions[k])[i])
    {
      var f := Log(t.sessions[k])[i];
      assert k < |s.sessions|;
      if i < |Log(s.sessions[k])| {
        assert AllBelong(s, s.sessions[k], Log(s.sessions[k]));
      } else {
        GotBelongs(s, a, k);
      }
      BelongsGrows(s, t, s.sessions[k], t.sessions[k], f);
    }
  }

  lemma GotBelongs(s: State, a: Action, k: nat)
    requires ConnsInv(s) && RouterInv(s) && OwnerInv(s) && SendInv(s) && Got(s, a, k) != [] && k < |s.sessions|
    ensures |Got(s, a, k)| == 1 && Belongs(s, s.sessions[k], Got(s, a, k)[0])
  {
    hide Belongs, Routable, ConnsInv, RouterInv, OwnerInv, SendInv;
    RoutableHasId(s.conns[a.c].up[0]);
    RoutedBelongs(s, a.c, k);
  }

  lemma RoutableHasId(f: Frame)
    ensures Routable(f) ==> f.sid != ""
  {
  }

  /* ---- All of it, in every run ---- */

  ghost predicate Inv(s: State) {
    ConnsInv(s) && RegInv(s) && RouterInv(s) && OwnerInv(s) && CloseInv(s) && OpenInv(s) && SendInv(s) && LogInv(s)
  }

  lemma InvStep(s: State, a: Action, t: State)
    requires Inv(s) && Next(s, a) == Some(t)
    ensures Inv(t)
  {
    hide Next, ConnsInv, RegInv, RouterInv, OwnerInv, CloseInv, OpenInv, SendInv, LogInv;
    ConnsStep(s, a, t);
    RegStep(s, a, t);
    RouterStep(s, a, t);
    OwnerStep(s, a, t);
    CloseStep(s, a, t);
    OpenStep(s, a, t);
    SendStep(s, a, t);
    LogStep(s, a, t);
  }

  lemma {:induction false} RunInv(run: seq<State>)
    requires IsRun(run)
    ensures Inv(Now(run))
    decreases |run|
  {
    hide Next, Inv;
    if |run| == 1 {
      InitInv();
    } else {
      var a := Shorter(run);
      RunInv(run[..|run| - 1]);
      InvStep(Now(run[..|run| - 1]), a, Now(run));
    }
  }

  lemma InitInv()
    ensures Inv(INIT)
  {
  }
}
