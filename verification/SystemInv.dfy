/** Invariants of the relay in every run: the registry, the router, the sessions' channels and
    the accounting of session.close events. */
module SystemInv {
  import opened Prelude
  import opened Exec
  import opened Routing
  import opened System
  import opened SystemShape
  import Link
  import AgentLoop

  /* ---- Registry ---- */

  /** A connection's channel is open exactly while it is its device's current connection, and
      has been closed exactly once when it is not. */
  ghost predicate RegInv(s: State) {
    && (forall d :: d in s.reg ==> s.reg[d] < |s.conns| && s.conns[s.reg[d]].device == d)
    && (forall c :: 0 <= c < |s.conns| ==> s.conns[c].open == Current(s, c) && ClosedOnce(s.conns[c]))
  }

  predicate ClosedOnce(c: Link.Conn) { c.closes == if c.open then 0 else 1 }

  /** Every step but a connect or disconnect leaves the registry and the channels' state. */
  lemma RegSame(s: State, a: Action, t: State)
    requires Next(s, a) == Some(t) && !a.Connect? && !a.Disconnect?
    ensures t.reg == s.reg
  {
    hide OnConn, NextOperator, NextService;
    if Operator(a) {
      OperatorRegSame(s, a, t);
    } else if Service(a) {
      ServiceRegSame(s, a, t);
    }
  }

  lemma OperatorRegSame(s: State, a: Action, t: State)
    requires NextOperator(s, a) == Some(t)
    ensures t.reg == s.reg
  {
    hide TrySend, Stamp, Detached, Forward;
  }

  lemma ServiceRegSame(s: State, a: Action, t: State)
    requires NextService(s, a) == Some(t)
    ensures t.reg == s.reg
  {
    hide TrySend, Consumed, ServiceFrame, Done;
  }

  lemma TouchShuts(s: State, a: Action, t: State)
    requires Next(s, a) == Some(t) && Touch(s, a).Touched? && Touch(s, a).la.Shut?
    ensures a.Connect? || a.Disconnect?
  {
    hide Link.Next, Collect, Stamp, ServiceFrame;
  }

  lemma RegStep(s: State, a: Action, t: State)
    requires RegInv(s) && Next(s, a) == Some(t)
    ensures RegInv(t)
  {
    if a.Connect? {
      ConnectReg(s, a.device, a.bufSize);
    } else if a.Disconnect? {
      DisconnectReg(s, a.c, t);
    } else {
      RegKept(s, a, t);
    }
  }

  lemma RegKept(s: State, a: Action, t: State)
    requires RegInv(s) && Next(s, a) == Some(t) && !a.Connect? && !a.Disconnect?
    ensures RegInv(t)
  {
    hide Next, Link.Next, Touch;
    RegSame(s, a, t);
    StepShape(s, a, t);
    var th := Touch(s, a);
    forall c | 0 <= c < |s.conns|
      ensures t.conns[c].open == s.conns[c].open && t.conns[c].device == s.conns[c].device
              && t.conns[c].closes == s.conns[c].closes
    {
      if t.conns[c] != s.conns[c] {
        LinkLater(s.conns[c], th.la, t.conns[c]);
        if th.la.Shut? {
          TouchShuts(s, a, t);
        }
      }
    }
    assert forall c :: 0 <= c < |s.conns| ==> Current(s, c) == Current(t, c);
  }

  /** Register closes the device's previous channel and makes the new connection current. */
  lemma RegisteredValue(s: State, device: string, bufSize: nat)
    requires RegInv(s)
    ensures var t := Registered(s, device, bufSize);
            && t.conns == Evicted(s, device) + [Link.NewConn(device, bufSize)]
            && t.reg == s.reg[device := |s.conns|]
  {
    assert device in s.reg ==> s.conns[s.reg[device]].open == Current(s, s.reg[device]);
  }

  function Retired(c: Link.Conn): Link.Conn { c.(open := false, closes := c.closes + 1) }

  function Evicted(s: State, device: string): seq<Link.Conn> {
    if device in s.reg && s.reg[device] < |s.conns|
    then s.conns[s.reg[device] := Retired(s.conns[s.reg[device]])] else s.conns
  }

  lemma ConnectReg(s: State, device: string, bufSize: nat)
    requires RegInv(s)
    ensures RegInv(Registered(s, device, bufSize))
  {
    hide Registered;
    var t := Registered(s, device, bufSize);
    RegisteredValue(s, device, bufSize);
    forall c | 0 <= c < |s.conns|
      ensures t.conns[c].open == Current(t, c) && ClosedOnce(t.conns[c])
    {
      assert s.conns[c].open == Current(s, c) && ClosedOnce(s.conns[c]);
    }
  }

  lemma DisconnectReg(s: State, c: nat, t: State)
    requires RegInv(s) && Next(s, Disconnect(c)) == Some(t)
    ensures RegInv(t)
  {
    hide Link.AgentNext;
    assert t.conns == s.conns[c := Retired(s.conns[c])];
    forall k | 0 <= k < |s.conns|
      ensures t.conns[k].open == Current(t, k) && ClosedOnce(t.conns[k])
    {
      assert s.conns[k].open == Current(s, k) && ClosedOnce(s.conns[k]);
    }
  }

  /* ---- Sessions' channels ---- */

  /** `closed` was closed at most once, and by the time the handler has detached. */
  predicate BoxOk(ss: Session) {
    && |ss.box.queue| <= TO_BROWSER && ss.box.closes == (if ss.box.closed then 1 else 0)
    && (ss.stage.Gone? ==> ss.box.closed)
  }

  predicate SessionSteps(a: Action) { !a.Attach? && !a.ServiceStart? && !a.Detach? }

  /** Every step but these three leaves the router, and who is detached. */
  ghost predicate Stays(s: State, t: State) {
    && t.router == s.router && |t.sessions| == |s.sessions|
    && forall k :: 0 <= k < |s.sessions| ==>
         && SameCall(s.sessions[k], t.sessions[k])
         && s.sessions[k].stage.Gone? == t.sessions[k].stage.Gone?
         && (BoxOk(s.sessions[k]) ==> BoxOk(t.sessions[k]))
  }

  lemma OneStays(s: State, t: State, k: nat, y: Session)
    requires t.router == s.router && k < |s.sessions| && t.sessions == s.sessions[k := y]
    requires SameCall(s.sessions[k], y) && s.sessions[k].stage.Gone? == y.stage.Gone?
             && (BoxOk(s.sessions[k]) ==> BoxOk(y))
    ensures Stays(s, t)
  {
  }

  lemma OperatorStays(s: State, a: Action, t: State)
    requires NextOperator(s, a) == Some(t) && SessionSteps(a)
    ensures Stays(s, t)
  {
    hide Stays, NextOperator;
    if a.FromOperator? {
      ForwardStays(s, a, t);
    } else {
      HandlerStays(s, a, t);
    }
  }

  lemma ForwardStays(s: State, a: Action, t: State)
    requires NextOperator(s, a) == Some(t) && a.FromOperator?
    ensures Stays(s, t)
  {
    hide NextOperator, Forward, Stays;
    ForwardIs(s, a, t);
    if t == s {
      OneStays(s, t, a.k, s.sessions[a.k]);
    } else {
      ForwardReads(s, a.k, Stamp(a.f, s.sessions[a.k].sid).value);
      OneStays(s, t, a.k, t.sessions[a.k]);
    }
  }

  lemma ForwardIs(s: State, a: Action, t: State)
    requires NextOperator(s, a) == Some(t) && a.FromOperator?
    ensures a.k < |s.sessions| && s.sessions[a.k].conn < |s.conns|
    ensures t == s
            || (Stamp(a.f, s.sessions[a.k].sid).Some? && t == Forward(s, a.k, Stamp(a.f, s.sessions[a.k].sid).value))
  {
    hide Forward, Stamp;
  }

  /** At most the session's pump stops reading. */
  lemma ForwardReads(s: State, k: nat, g: Frame)
    requires k < |s.sessions| && s.sessions[k].conn < |s.conns|
    ensures var t := Forward(s, k, g);
            && t.router == s.router && |t.sessions| == |s.sessions|
            && t.sessions == s.sessions[k := s.sessions[k].(reading := t.sessions[k].reading)]
  {
    hide TrySend;
  }

  lemma HandlerStays(s: State, a: Action, t: State)
    requires NextOperator(s, a) == Some(t) && SessionSteps(a) && !a.FromOperator?
    ensures Stays(s, t)
  {
    hide TrySend, Forward, Stamp, Detached, Attached, Teardown, Stays;
    OneStays(s, t, a.k, t.sessions[a.k]);
  }

  lemma ServiceStays(s: State, a: Action, t: State)
    requires NextService(s, a) == Some(t) && SessionSteps(a)
    ensures Stays(s, t)
  {
    hide TrySend, Collect, Partial, Stays;
    OneStays(s, t, a.k, t.sessions[a.k]);
  }

  lemma StepStays(s: State, a: Action, t: State)
    requires Next(s, a) == Some(t) && SessionSteps(a)
    ensures Stays(s, t)
  {
    hide Stays, Next;
    if Operator(a) {
      IsOperators(s, a);
      OperatorStays(s, a, t);
    } else if Service(a) {
      IsServices(s, a);
      ServiceStays(s, a, t);
    } else {
      RelayStays(s, a, t);
    }
  }

  lemma IsOperators(s: State, a: Action)
    requires Operator(a) && Next(s, a).Some?
    ensures Next(s, a) == NextOperator(s, a)
  {
    hide NextOperator, NextService;
  }

  lemma IsServices(s: State, a: Action)
    requires Service(a) && Next(s, a).Some?
    ensures Next(s, a) == NextService(s, a)
  {
    hide NextOperator, NextService;
  }

  lemma RelayStays(s: State, a: Action, t: State)
    requires !Operator(a) && !Service(a) && Next(s, a) == Some(t)
    ensures Stays(s, t)
  {
    hide OnConn, Delivered, Registered, CloseOutbound, BoxOk;
    if a.Route? {
      DeliveredStays(Heard(OnConn(s, a.c, Link.Read).value, a.c, s.conns[a.c].up[0]), s.conns[a.c].up[0]);
    } else if a.Connect? {
      RegisteredStays(s, a.device, a.bufSize);
    }
  }

  lemma DeliveredStays(s: State, f: Frame)
    ensures Stays(s, Delivered(s, f))
  {
    hide Routable;
  }

  lemma RegisteredStays(s: State, device: string, bufSize: nat)
    ensures Stays(s, Registered(s, device, bufSize))
  {
    hide CloseOutbound;
  }

  /* ---- Router ---- */

  /** The router maps each id to the one session attached under it. */
  ghost predicate RouterInv(s: State) {
    && (forall sid :: sid in s.router ==>
          && s.router[sid] < |s.sessions| && s.sessions[s.router[sid]].sid == sid
          && !s.sessions[s.router[sid]].stage.Gone?)
    && (forall k :: 0 <= k < |s.sessions| && !s.sessions[k].stage.Gone? ==>
          s.sessions[k].sid in s.router && s.router[s.sessions[k].sid] == k)
    && (forall k :: 0 <= k < |s.sessions| ==> BoxOk(s.sessions[k]))
  }

  /** detach is keyed by id alone, yet removes and closes only its own handler's session. */
  lemma DetachesOwn(s: State, k: nat)
    requires RouterInv(s) && k < |s.sessions| && s.sessions[k].stage.Ended?
    ensures var ss := s.sessions[k];
            Detached(s, k) == s.(sessions := s.sessions[k := ss.(box := Shut(ss.box), stage := Gone)],
                                 router := s.router - {s.sessions[k].sid})
  {
  }

  lemma AttachKeeps(s: State, ss: Session)
    requires RouterInv(s) && ss.sid !in s.router && ss.box == FRESH && !ss.stage.Gone?
    ensures RouterInv(Attached(s, ss))
  {
  }

  lemma RouterStays(s: State, t: State)
    requires RouterInv(s) && Stays(s, t)
    ensures RouterInv(t)
  {
  }

  lemma RouterStep(s: State, a: Action, t: State)
    requires RouterInv(s) && OwnerInv(s) && Next(s, a) == Some(t)
    ensures RouterInv(t)
  {
    hide RouterInv, Link.Next, Stamp;
    if SessionSteps(a) {
      StepStays(s, a, t);
      RouterStays(s, t);
    } else if a.Detach? {
      DetachKeeps(s, a.k);
    } else {
      AttachingKeeps(s, a, t);
    }
  }

  lemma AttachingKeeps(s: State, a: Action, t: State)
    requires RouterInv(s) && OwnerInv(s) && Next(s, a) == Some(t) && (a.Attach? || a.ServiceStart?)
    ensures RouterInv(t)
  {
    hide Link.Next, Stamp, ServiceFrame;
    AttachedIdsOwned(s);
    if t.sessions != s.sessions {
      var ss := t.sessions[|s.sessions|];
      AttachKeeps(s, ss);
      RouterOnly(Attached(s, ss), t);
    }
  }

  lemma AttachedIdsOwned(s: State)
    requires RouterInv(s) && OwnerInv(s)
    ensures forall sid :: sid in s.router ==> sid in s.owner
  {
    forall sid | sid in s.router
      ensures sid in s.owner
    {
      assert OwnedBy(s, s.sessions[s.router[sid]]);
    }
  }

  lemma RouterOnly(s: State, t: State)
    requires RouterInv(s) && t.sessions == s.sessions && t.router == s.router
    ensures RouterInv(t)
  {
  }

  lemma DetachKeeps(s: State, k: nat)
    requires RouterInv(s) && k < |s.sessions| && s.sessions[k].stage.Ended?
    ensures RouterInv(Detached(s, k))
  {
    DetachesOwn(s, k);
  }

  /* ---- Ids ---- */

  /** Every session's id was issued for its connection's device, to its kind of caller; a
      service call shares its id with nobody. */
  ghost predicate OwnerInv(s: State) {
    && "" !in s.owner
    && (forall k :: 0 <= k < |s.sessions| ==> OwnedBy(s, s.sessions[k]))
    && (forall k, j :: 0 <= k < |s.sessions| && 0 <= j < |s.sessions| && k != j && s.sessions[k].request.Some? ==>
          s.sessions[k].sid != s.sessions[j].sid)
  }

  ghost predicate OwnedBy(s: State, ss: Session) {
    && ss.conn < |s.conns| && ss.sid in s.owner && s.owner[ss.sid] == Owner(s.conns[ss.conn].device, ss.request.Some?)
    && (ss.request.Some? ==> RequestOk(ss.sid, ss.request.value)
                             && ss.call.Some? && Fulfils(ss.request.value, ss.sid, ss.call.value))
  }

  /** f asks the agent for what the caller asked for: a timeout within ten minutes and a limit
      within 8 MiB are passed on, any other becomes ten minutes or 1 MiB. */
  predicate Fulfils(f: Frame, sid: string, r: Request) {
    && f.kind.ExecStart? && f.sid == sid && f.eid != "" && (r.argv != [] || r.script.Some?)
    && f.exec == Some(ExecSpec(r.argv, r.script,
                               if 1 <= r.timeoutMs <= 600_000 then r.timeoutMs else 600_000,
                               if 1 <= r.outputCap <= 8_388_608 then r.outputCap else 1_048_576))
  }

  predicate Limited(f: Frame) {
    f.kind.ExecStart? && f.exec.Some? ==>
      0 < f.exec.value.timeoutMs <= MAX_TIMEOUT && 0 < f.exec.value.outputCap <= MAX_CAP
  }

  predicate RequestOk(sid: string, f: Frame) { f.sid == sid && AgentLoop.ValidExec(f) && Limited(f) }

  lemma OwnerGrows(s: State, t: State, ss: Session)
    requires Grows(s, t) && OwnedBy(s, ss)
    ensures OwnedBy(t, ss)
  {
  }

  lemma AddedOk(s: State, a: Action, t: State)
    requires OwnerInv(s) && Next(s, a) == Some(t) && Added(s, a) != []
    ensures var ss := Added(s, a)[0];
            && OwnedBy(t, ss) && "" !in t.owner
            && forall k :: 0 <= k < |s.sessions| && (s.sessions[k].request.Some? || ss.request.Some?) ==>
                 s.sessions[k].sid != ss.sid
  {
    hide Link.Next, Stamp;
    var ss := Added(s, a)[0];
    forall k | 0 <= k < |s.sessions| && (s.sessions[k].request.Some? || ss.request.Some?)
      ensures s.sessions[k].sid != ss.sid
    {
      assert OwnedBy(s, s.sessions[k]);
    }
  }

  lemma NoEmptyId(s: State, a: Action, t: State)
    requires "" !in s.owner && Next(s, a) == Some(t)
    ensures "" !in t.owner
  {
    hide OnConn, TrySend, Stamp, Collect, ServiceFrame, Offer, Routing.Shut;
  }

  lemma OwnerStep(s: State, a: Action, t: State)
    requires OwnerInv(s) && Next(s, a) == Some(t)
    ensures OwnerInv(t)
  {
    hide Next, OwnedBy, Added, Touch;
    StepGrows(s, a, t);
    StepShape(s, a, t);
    NoEmptyId(s, a, t);
    if Added(s, a) != [] {
      AddedOk(s, a, t);
    }
    var n := |s.sessions|;
    assert Added(s, a) != [] ==> t.sessions[n] == Added(s, a)[0] by {
      assert Added(s, a) != [] ==> t.sessions[n] == t.sessions[n..][0];
    }
    assert |Added(s, a)| <= 1 by { AtMostOneAdded(s, a); }
    forall k | 0 <= k < |t.sessions|
      ensures OwnedBy(t, t.sessions[k])
    {
      if k < |s.sessions| {
        OwnerGrows(s, t, s.sessions[k]);
        OwnedSame(t, s.sessions[k], t.sessions[k]);
      }
    }
    forall k, j | 0 <= k < |t.sessions| && 0 <= j < |t.sessions| && k != j && t.sessions[k].request.Some?
      ensures t.sessions[k].sid != t.sessions[j].sid
    {
      assert k < n ==> SameCall(s.sessions[k], t.sessions[k]);
      assert j < n ==> SameCall(s.sessions[j], t.sessions[j]);
    }
  }

  lemma AtMostOneAdded(s: State, a: Action)
    ensures |Added(s, a)| <= 1
  {
  }

  lemma OwnedSame(s: State, x: Session, y: Session)
    requires OwnedBy(s, x) && SameCall(x, y)
    ensures OwnedBy(s, y)
  {
  }

  /* ---- Accounting ---- */

  /** An operator session (of this id, if one is given) whose session.close has not been
      emitted. */
  predicate StillOpen(ss: Session, sid: Option<string>) {
    ss.request.None? && (ss.stage.Live? || ss.stage.Leaving?) && (sid.Some? ==> ss.sid == sid.value)
  }

  function OpenCount(ss: seq<Session>, sid: Option<string>): nat {
    if ss == [] then 0 else OpenCount(ss[..|ss| - 1], sid) + (if StillOpen(ss[|ss| - 1], sid) then 1 else 0)
  }

  /** How many events there are, of this id if one is given. */
  function Events(m: multiset<string>, sid: Option<string>): nat { if sid.Some? then m[sid.value] else |m| }

  lemma {:induction false} OpenCountUpdate(a: seq<Session>, k: nat, x: Session, sid: Option<string>)
    requires k < |a|
    ensures OpenCount(a[k := x], sid) + (if StillOpen(a[k], sid) then 1 else 0)
            == OpenCount(a, sid) + (if StillOpen(x, sid) then 1 else 0)
  {
    var n := |a| - 1;
    if k < n {
      OpenCountUpdate(a[..n], k, x, sid);
      assert a[k := x][..n] == a[..n][k := x];
    } else {
      assert a[k := x][..n] == a[..n];
    }
  }

  lemma {:induction false} OpenCountSame(a: seq<Session>, b: seq<Session>, sid: Option<string>)
    requires |a| == |b| && forall k :: 0 <= k < |a| ==> StillOpen(a[k], sid) == StillOpen(b[k], sid)
    ensures OpenCount(a, sid) == OpenCount(b, sid)
  {
    if a != [] {
      OpenCountSame(a[..|a| - 1], b[..|b| - 1], sid);
    }
  }

  /** In all, and for each id: closes and sessions still open make up the attaches. */
  ghost predicate CloseInv(s: State) {
    forall sid :: Balanced(s, sid)
  }

  predicate Balanced(s: State, sid: Option<string>) {
    Events(s.closes, sid) + OpenCount(s.sessions, sid) == Events(s.attaches, sid)
  }

  /** session.open was emitted once for each id minted for an operator, and for no other. */
  ghost predicate OpenInv(s: State) {
    forall sid :: s.opens[sid] == if sid in s.owner && !s.owner[sid].service then 1 else 0
  }

  /** Every step but these leaves the events, and which operator sessions are open. */
  ghost predicate CountsStay(s: State, t: State) {
    && t.attaches == s.attaches && t.closes == s.closes && |t.sessions| == |s.sessions|
    && forall k, sid :: 0 <= k < |s.sessions| ==> StillOpen(s.sessions[k], sid) == StillOpen(t.sessions[k], sid)
  }

  lemma OneCounts(s: State, t: State, k: nat, y: Session)
    requires t.attaches == s.attaches && t.closes == s.closes && k < |s.sessions| && t.sessions == s.sessions[k := y]
    requires forall sid :: StillOpen(s.sessions[k], sid) == StillOpen(y, sid)
    ensures CountsStay(s, t)
  {
  }

  lemma OperatorCounts(s: State, a: Action, t: State)
    requires NextOperator(s, a) == Some(t) && !a.Attach? && !a.EmitClose? && !a.Detach?
    ensures CountsStay(s, t)
  {
    hide TrySend, Stamp, Teardown, CountsStay;
    OneCounts(s, t, a.k, t.sessions[a.k]);
  }

  lemma DetachCounts(s: State, k: nat)
    requires k < |s.sessions| && s.sessions[k].stage.Ended?
    ensures CountsStay(s, Detached(s, k))
  {
    hide Shut;
  }

  lemma ServiceCounts(s: State, a: Action, t: State)
    requires NextService(s, a) == Some(t) && !a.ServiceStart?
    ensures CountsStay(s, t)
  {
    hide TrySend, Collect, Partial, CountsStay;
    OneCounts(s, t, a.k, t.sessions[a.k]);
  }

  lemma RelayCounts(s: State, a: Action, t: State)
    requires !Operator(a) && !Service(a) && Next(s, a) == Some(t)
    ensures CountsStay(s, t)
  {
    hide OnConn, Offer;
  }

  lemma CountsBalance(s: State, t: State)
    requires CloseInv(s) && CountsStay(s, t)
    ensures CloseInv(t)
  {
    hide OpenCount, StillOpen;
    forall sid
      ensures Balanced(t, sid)
    {
      assert Balanced(s, sid);
      OpenCountSame(s.sessions, t.sessions, sid);
    }
  }

  lemma CloseStep(s: State, a: Action, t: State)
    requires CloseInv(s) && Next(s, a) == Some(t)
    ensures CloseInv(t)
  {
    hide NextOperator, NextService, CloseInv, CountsStay, Detached;
    if a.Attach? || a.ServiceStart? {
      AttachBalance(s, a, t);
    } else if a.EmitClose? {
      EmitBalance(s, a.k, t);
    } else {
      if a.Detach? {
        DetachIs(s, a.k, t);
        DetachCounts(s, a.k);
      } else if Operator(a) {
        OperatorCounts(s, a, t);
      } else if Service(a) {
        ServiceCounts(s, a, t);
      } else {
        RelayCounts(s, a, t);
      }
      CountsBalance(s, t);
    }
  }

  lemma DetachIs(s: State, k: nat, t: State)
    requires Next(s, Detach(k)) == Some(t)
    ensures k < |s.sessions| && s.sessions[k].stage.Ended? && t == Detached(s, k)
  {
    hide Detached;
  }

  lemma EmitBalance(s: State, k: nat, t: State)
    requires CloseInv(s) && Next(s, EmitClose(k)) == Some(t)
    ensures CloseInv(t)
  {
    hide OpenCount, NextService;
    forall sid
      ensures Balanced(t, sid)
    {
      assert Balanced(s, sid);
      OpenCountUpdate(s.sessions, k, t.sessions[k], sid);
    }
  }

  lemma AttachBalance(s: State, a: Action, t: State)
    requires CloseInv(s) && Next(s, a) == Some(t) && (a.Attach? || a.ServiceStart?)
    ensures CloseInv(t)
  {
    hide Link.Next, ServiceFrame;
    forall sid
      ensures Balanced(t, sid)
    {
      assert Balanced(s, sid);
      if t != s {
        assert t.sessions[..|s.sessions|] == s.sessions;
      }
    }
  }

  lemma OpenStep(s: State, a: Action, t: State)
    requires OpenInv(s) && Next(s, a) == Some(t)
    ensures OpenInv(t)
  {
    hide NextOperator, NextService, OnConn, Registered, Delivered;
    if Operator(a) {
      OperatorOpens(s, a, t);
    } else if Service(a) {
      ServiceOpens(s, a, t);
    } else if a.Connect? {
      RegisteredOpens(s, a.device, a.bufSize);
    } else if a.Route? {
      var f := s.conns[a.c].up[0];
      DeliveredOpens(Heard(OnConn(s, a.c, Link.Read).value, a.c, f), f);
    }
  }

  lemma OperatorOpens(s: State, a: Action, t: State)
    requires NextOperator(s, a) == Some(t)
    ensures t.opens == s.opens && t.owner == s.owner
  {
    hide TrySend, Stamp, Detached, Forward;
  }

  lemma ServiceOpens(s: State, a: Action, t: State)
    requires OpenInv(s) && NextService(s, a) == Some(t)
    ensures OpenInv(t)
  {
    hide TrySend, Consumed, ServiceFrame, Done;
  }

  lemma RegisteredOpens(s: State, device: string, bufSize: nat)
    ensures Registered(s, device, bufSize).opens == s.opens && Registered(s, device, bufSize).owner == s.owner
  {
    hide OnConn;
  }

  lemma DeliveredOpens(s: State, f: Frame)
    ensures Delivered(s, f).opens == s.opens && Delivered(s, f).owner == s.owner
  {
  }

  /** No two sessions of one id are open at once. */
  lemma {:induction false} OpenAtMostOne(s: State, n: nat, sid: string)
    requires RouterInv(s) && n <= |s.sessions|
    ensures OpenCount(s.sessions[..n], Some(sid)) <= 1
    ensures OpenCount(s.sessions[..n], Some(sid)) == 1
            <==> exists k :: 0 <= k < n && StillOpen(s.sessions[k], Some(sid))
  {
    hide BoxOk;
    if n > 0 {
      OpenAtMostOne(s, n - 1, sid);
      assert s.sessions[..n][..n - 1] == s.sessions[..n - 1];
      if k :| 0 <= k < n - 1 && StillOpen(s.sessions[k], Some(sid)) {
        assert s.router[sid] == k;
      }
    }
  }
}
