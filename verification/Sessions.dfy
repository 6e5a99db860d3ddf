/** What one attached session hears, in every run: all that any read pump takes off the wire for
    its id, in that order and without a gap, until it overflows or is detached. */
module Sessions {
  import opened Prelude
  import opened Exec
  import opened Routing
  import opened System
  import opened SystemShape
  import opened SystemInv
  import opened Isolation
  import AgentLoop
  import AgentRuns
  import AgentTraces
  import Link
  import Calls = Service

  /* ---- Selections ---- */

  function Frames(read: seq<Incoming>): seq<Frame> { seq(|read|, i requires 0 <= i < |read| => read[i].frame) }

  function IsFrom(c: nat): Incoming -> bool { (r: Incoming) => r.c == c }

  /** The kinds of frame that belong to some session: the answers of execs and shells. */
  predicate Answer(f: Frame) {
    f.kind in {ExecAck, Stdout, Stderr, Exit, Error, PtyData, PtyExit}
  }

  function IsFor(sid: string): Frame -> bool { (f: Frame) => Answer(f) && f.sid == sid && sid != "" }

  function IsOf(sid: string, eid: string): Frame -> bool { (f: Frame) => f.sid == sid && f.eid == eid }

  /** What the pump of connection c has read. */
  function From(read: seq<Incoming>, c: nat): seq<Frame> { Frames(Filter(read, IsFrom(c))) }

  /** The frames the relay routes to a session of this id. */
  function ForSession(fs: seq<Frame>, sid: string): seq<Frame> { Filter(fs, IsFor(sid)) }

  /** The frames of one exec of a session. */
  function OfExec(fs: seq<Frame>, sid: string, eid: string): seq<Frame> { Filter(fs, IsOf(sid, eid)) }

  lemma RoutableIs()
    ensures forall f: Frame :: Routable(f) <==> Answer(f) && f.sid != ""
  {
  }

  /* ---- One step ---- */

  /** The frame a step takes off the wire, if any. */
  function Arrives(s: State, a: Action): seq<Incoming> {
    if a.Route? && a.c < |s.conns| && s.conns[a.c].up != [] then [Incoming(a.c, s.conns[a.c].up[0])] else []
  }

  lemma ReadGrows(s: State, a: Action, t: State)
    requires Next(s, a) == Some(t)
    ensures t.read == s.read + Arrives(s, a)
  {
    hide NextOperator, NextService;
    if Operator(a) {
      OperatorReads(s, a, t);
    } else if Service(a) {
      ServiceReads(s, a, t);
    } else {
      RelayReads(s, a, t);
    }
  }

  lemma OperatorReads(s: State, a: Action, t: State)
    requires NextOperator(s, a) == Some(t)
    ensures t.read == s.read && !a.Route?
  {
    hide TrySend, Stamp, Detached, Forward;
  }

  lemma ServiceReads(s: State, a: Action, t: State)
    requires NextService(s, a) == Some(t)
    ensures t.read == s.read && !a.Route?
  {
    hide TrySend, Consumed, ServiceFrame, Done;
  }

  lemma RelayReads(s: State, a: Action, t: State)
    requires !Operator(a) && !Service(a) && Next(s, a) == Some(t)
    ensures t.read == s.read + Arrives(s, a)
  {
    hide OnConn, Offer, Link.Next;
  }

  predicate Listening(ss: Session) { !ss.stage.Gone? && !ss.box.closed }

  /** Nothing reopens a session. */
  ghost predicate StaysClosed(s: State, t: State) {
    && |s.sessions| <= |t.sessions|
    && forall k :: 0 <= k < |s.sessions| && Listening(t.sessions[k]) ==> Listening(s.sessions[k])
  }

  lemma OneCloses(s: State, t: State, k: nat, y: Session)
    requires k < |s.sessions| && t.sessions == s.sessions[k := y] && (Listening(y) ==> Listening(s.sessions[k]))
    ensures StaysClosed(s, t)
  {
  }

  lemma OperatorCloses(s: State, a: Action, t: State)
    requires NextOperator(s, a) == Some(t)
    ensures StaysClosed(s, t)
  {
    hide NextOperator, StaysClosed;
    if a.Attach? || a.Detach? {
      AttachCloses(s, a, t);
    } else if a.FromOperator? {
      ForwardCloses(s, a, t);
    } else {
      HandlerCloses(s, a, t);
    }
  }

  lemma AttachCloses(s: State, a: Action, t: State)
    requires NextOperator(s, a) == Some(t) && (a.Attach? || a.Detach?)
    ensures StaysClosed(s, t)
  {
  }

  lemma ForwardCloses(s: State, a: Action, t: State)
    requires NextOperator(s, a) == Some(t) && a.FromOperator?
    ensures StaysClosed(s, t)
  {
    hide NextOperator, Forward, StaysClosed;
    ForwardIs(s, a, t);
    if t == s {
      OneCloses(s, t, a.k, s.sessions[a.k]);
    } else {
      ForwardReads(s, a.k, Stamp(a.f, s.sessions[a.k].sid).value);
      OneCloses(s, t, a.k, t.sessions[a.k]);
    }
  }

  lemma HandlerCloses(s: State, a: Action, t: State)
    requires NextOperator(s, a) == Some(t) && !a.FromOperator? && !a.Attach? && !a.Detach?
    ensures StaysClosed(s, t)
  {
    hide TrySend, Teardown, StaysClosed;
    OneCloses(s, t, a.k, t.sessions[a.k]);
  }

  lemma ServiceCloses(s: State, a: Action, t: State)
    requires NextService(s, a) == Some(t)
    ensures StaysClosed(s, t)
  {
    hide TrySend, ServiceFrame, Teardown, Collect, StaysClosed;
    if a.ServiceStart? {
      StartCloses(s, a, t);
    } else {
      OneCloses(s, t, a.k, t.sessions[a.k]);
    }
  }

  lemma StartCloses(s: State, a: Action, t: State)
    requires NextService(s, a) == Some(t) && a.ServiceStart?
    ensures StaysClosed(s, t)
  {
    hide ServiceFrame;
  }

  /** A frame for a session either enters its channel or closes it. */
  lemma RelayCloses(s: State, a: Action, t: State)
    requires !Operator(a) && !Service(a) && Next(s, a) == Some(t)
    ensures StaysClosed(s, t)
    ensures a.Route? ==> forall k :: 0 <= k < |s.sessions| && Listening(t.sessions[k])
                                     && Isolation.Got(s, a, k) == [] ==>
                           !(Routable(s.conns[a.c].up[0]) && s.conns[a.c].up[0].sid in s.router
                             && s.router[s.conns[a.c].up[0].sid] == k)
  {
    hide OnConn, Registered, Routable, Link.Next;
    if a.Connect? {
      RegisteredSessions(s, a.device, a.bufSize);
    }
  }

  lemma StepCloses(s: State, a: Action, t: State)
    requires Next(s, a) == Some(t)
    ensures StaysClosed(s, t)
  {
    hide NextOperator, NextService, StaysClosed;
    if Operator(a) {
      OperatorCloses(s, a, t);
    } else if Service(a) {
      ServiceCloses(s, a, t);
    } else {
      RelayCloses(s, a, t);
    }
  }

  /* ---- Invariants ---- */

  /** The global order of arrivals agrees with that of each connection. */
  ghost predicate ReadInv(s: State) {
    && (forall c :: 0 <= c < |s.conns| ==> s.conns[c].routed == From(s.read, c))
    && (forall i :: 0 <= i < |s.read| ==> s.read[i].c < |s.conns|)
  }

  lemma FromSnoc(read: seq<Incoming>, r: Incoming, c: nat)
    ensures From(read + [r], c) == From(read, c) + (if r.c == c then [r.frame] else [])
  {
    FilterSnoc(read, r, IsFrom(c));
  }

  lemma {:induction false} FromNobody(read: seq<Incoming>, c: nat)
    requires forall i :: 0 <= i < |read| ==> read[i].c != c
    ensures From(read, c) == []
  {
    if read != [] {
      FromNobody(read[..|read| - 1], c);
    }
  }

  lemma ReadStep(s: State, a: Action, t: State)
    requires ReadInv(s) && Next(s, a) == Some(t)
    ensures ReadInv(t)
  {
    hide Next, Link.Next, Touch, From;
    ReadGrows(s, a, t);
    StepShape(s, a, t);
    forall c | 0 <= c < |t.conns|
      ensures t.conns[c].routed == From(t.read, c)
    {
      if c < |s.conns| {
        RoutedGrows(s, a, t, c);
        if Arrives(s, a) != [] {
          OneArrives(s, a);
          FromSnoc(s.read, Arrives(s, a)[0], c);
        } else {
          assert t.read == s.read && t.conns[c].routed == s.conns[c].routed;
        }
      } else {
        assert a.Connect? && Arrives(s, a) == [];
        assert t.read == s.read && t.conns[c].routed == [];
        FromNobody(s.read, c);
      }
    }
  }

  /** What the pump of one connection has read grows by what arrives there. */
  lemma RoutedGrows(s: State, a: Action, t: State, c: nat)
    requires Next(s, a) == Some(t) && c < |s.conns|
    ensures c < |t.conns|
    ensures t.conns[c].routed
            == s.conns[c].routed + (if Arrives(s, a) != [] && a.c == c then [s.conns[c].up[0]] else [])
  {
    hide Next, Link.Next, Touch;
    StepShape(s, a, t);
    Calls.ReadsOnlyWhenRouting(s, a, t);
    var th := Touch(s, a);
    if t.conns[c] != s.conns[c] {
      LinkLater(s.conns[c], th.la, t.conns[c]);
    } else if a.Route? && a.c == c {
      Calls.ReadChanges(s, c, t);
    }
  }

  /** All of xs occur in ys, in the same order. */
  predicate Within(xs: seq<Frame>, ys: seq<Frame>) {
    if xs == [] then true
    else if ys == [] then false
    else if xs[|xs| - 1] == ys[|ys| - 1] then Within(xs[..|xs| - 1], ys[..|ys| - 1])
    else Within(xs, ys[..|ys| - 1])
  }

  lemma {:induction false} WithinFront(xs: seq<Frame>, ys: seq<Frame>)
    requires xs != [] && Within(xs, ys)
    ensures Within(xs[..|xs| - 1], ys)
    decreases |ys|, 0
  {
    var front := xs[..|xs| - 1];
    if front != [] {
      if xs[|xs| - 1] == ys[|ys| - 1] {
        WithinMore(front, ys[..|ys| - 1], ys[|ys| - 1]);
        assert ys == ys[..|ys| - 1] + [ys[|ys| - 1]];
      } else {
        WithinFront(xs, ys[..|ys| - 1]);
        WithinMore(front, ys[..|ys| - 1], ys[|ys| - 1]);
        assert ys == ys[..|ys| - 1] + [ys[|ys| - 1]];
      }
    }
  }

  lemma {:induction false} WithinMore(xs: seq<Frame>, ys: seq<Frame>, y: Frame)
    requires Within(xs, ys)
    ensures Within(xs, ys + [y])
    decreases |ys|, 1
  {
    assert (ys + [y])[..|ys|] == ys;
    if xs != [] && xs[|xs| - 1] == y {
      WithinFront(xs, ys);
    }
  }

  lemma WithinBoth(xs: seq<Frame>, ys: seq<Frame>, y: Frame)
    requires Within(xs, ys)
    ensures Within(xs + [y], ys + [y])
  {
    assert (xs + [y])[..|xs|] == xs && (ys + [y])[..|ys|] == ys;
  }

  /** An attached session has heard all that came for its id since; any session has heard, in
      order, some of it and nothing else. */
  ghost predicate HeardInv(s: State) {
    forall k :: 0 <= k < |s.sessions| ==> HeardAll(s, s.sessions[k])
  }

  ghost predicate HeardAll(s: State, ss: Session) {
    && ss.since <= |s.read| && Within(Log(ss), ForSession(Frames(s.read[ss.since..]), ss.sid))
    && (Listening(ss) ==> Log(ss) == ForSession(Frames(s.read[ss.since..]), ss.sid))
  }

  lemma ForSessionSnoc(read: seq<Incoming>, r: Incoming, n: nat, sid: string)
    requires n <= |read|
    ensures ForSession(Frames((read + [r])[n..]), sid)
            == ForSession(Frames(read[n..]), sid) + (if IsFor(sid)(r.frame) then [r.frame] else [])
  {
    assert (read + [r])[n..] == read[n..] + [r];
    assert Frames(read[n..] + [r]) == Frames(read[n..]) + [r.frame];
    FilterSnoc(Frames(read[n..]), r.frame, IsFor(sid));
  }

  lemma HeardStep(s: State, a: Action, t: State)
    requires RouterInv(s) && HeardInv(s) && Next(s, a) == Some(t)
    ensures HeardInv(t)
  {
    hide Next, RouterInv, Added, HeardAll;
    StepShape(s, a, t);
    forall k | 0 <= k < |t.sessions|
      ensures HeardAll(t, t.sessions[k])
    {
      if k < |s.sessions| {
        OldHears(s, a, t, k);
      } else {
        assert t.sessions[|s.sessions|..][k - |s.sessions|] == t.sessions[k];
        NewHears(s, a, t, t.sessions[k]);
      }
    }
  }

  lemma OldHears(s: State, a: Action, t: State, k: nat)
    requires RouterInv(s) && HeardInv(s) && Next(s, a) == Some(t) && k < |s.sessions|
    ensures k < |t.sessions| && HeardAll(t, t.sessions[k])
  {
    hide Next, RouterInv, Log, ForSession, Isolation.Got, Arrives, Within, IsFor;
    StepGrows(s, a, t);
    StepLogs(s, a, t);
    StepCloses(s, a, t);
    ReadGrows(s, a, t);
    var ss, tt := s.sessions[k], t.sessions[k];
    assert HeardAll(s, ss) && SameCall(ss, tt);
    var heard := ForSession(Frames(s.read[ss.since..]), ss.sid);
    GotArrives(s, a, k);
    if Arrives(s, a) == [] {
      assert t.read == s.read && Log(tt) == Log(ss);
    } else {
      var r := Arrives(s, a)[0];
      OneArrives(s, a);
      ForSessionSnoc(s.read, r, ss.since, ss.sid);
      assert t.read == s.read + [r];
      var now := ForSession(Frames(t.read[tt.since..]), tt.sid);
      assert now == heard + (if IsFor(ss.sid)(r.frame) then [r.frame] else []);
      assert Log(ss) + [] == Log(ss) && heard + [] == heard;
      if Isolation.Got(s, a, k) != [] {
        WithinBoth(Log(ss), heard, r.frame);
      } else if IsFor(ss.sid)(r.frame) {
        WithinMore(Log(ss), heard, r.frame);
      }
      assert Within(Log(tt), now);
      if Listening(tt) {
        GotIsHeard(s, a, t, k);
      }
    }
  }

  /** A session gets nothing but what arrives for its id. */
  lemma GotArrives(s: State, a: Action, k: nat)
    requires RouterInv(s) && k < |s.sessions|
    ensures Isolation.Got(s, a, k) != [] ==>
              && Arrives(s, a) != [] && Isolation.Got(s, a, k) == [Arrives(s, a)[0].frame]
              && IsFor(s.sessions[k].sid)(Arrives(s, a)[0].frame)
  {
    hide BoxOk, Routable, Answer;
    RoutableIs();
  }

  lemma OneArrives(s: State, a: Action)
    requires Arrives(s, a) != []
    ensures Arrives(s, a) == [Arrives(s, a)[0]]
  {
  }

  /** What an attached session gets is what arrives for its id. */
  lemma GotIsHeard(s: State, a: Action, t: State, k: nat)
    requires RouterInv(s) && Next(s, a) == Some(t) && k < |s.sessions| && k < |t.sessions| && Listening(t.sessions[k])
    requires Listening(s.sessions[k])
    ensures Isolation.Got(s, a, k) == if Arrives(s, a) != [] && IsFor(s.sessions[k].sid)(Arrives(s, a)[0].frame)
                            then [Arrives(s, a)[0].frame] else []
  {
    hide Next, BoxOk, Routable, Answer;
    RoutableIs();
    if Arrives(s, a) != [] {
      assert !Operator(a) && !Service(a);
      RelayCloses(s, a, t);
    }
  }

  lemma NewHears(s: State, a: Action, t: State, ss: Session)
    requires Next(s, a) == Some(t) && ss in Added(s, a)
    ensures HeardAll(t, ss)
  {
    hide Next;
    ReadGrows(s, a, t);
    assert Arrives(s, a) == [];
    assert t.read[|s.read|..] == [];
    assert ss.since == |s.read| && Log(ss) == [];
  }

  ghost predicate Inv(s: State) { ReadInv(s) && HeardInv(s) }

  lemma {:induction false} RunHears(run: seq<State>)
    requires IsRun(run)
    ensures Isolation.Inv(Now(run)) && Inv(Now(run))
    decreases |run|
  {
    hide Next, Isolation.Inv, ReadInv, HeardInv;
    RunInv(run);
    if |run| == 1 {
      NothingRead();
    } else {
      var a := Shorter(run);
      var s := Now(run[..|run| - 1]);
      RunHears(run[..|run| - 1]);
      ReadStep(s, a, Now(run));
      Calls.RouterOf(s);
      HeardStep(s, a, Now(run));
    }
  }

  lemma NothingRead()
    ensures Inv(INIT)
  {
  }

  /* ---- In order and without a gap ---- */

  /** While a session is attached and has not overflowed, what was ever put in its channel is
      exactly the routable frames of its id that any pump has read since it was attached, in
      the order they were read. */
  lemma SessionInOrder(run: seq<State>, k: nat)
    requires IsRun(run) && k < |Now(run).sessions| && Listening(Now(run).sessions[k])
    ensures var s, ss := Now(run), Now(run).sessions[k];
            ss.since <= |s.read| && Log(ss) == ForSession(Frames(s.read[ss.since..]), ss.sid)
  {
    hide IsRun, Isolation.Inv, ReadInv, ForSession, Frames, Log;
    RunHears(run);
    assert HeardAll(Now(run), Now(run).sessions[k]);
  }

  /** Overflowed or detached, a session has still heard nothing out of order, nothing twice and
      nothing of another id: some of those frames, in the order read. */
  lemma SessionNeverReorders(run: seq<State>, k: nat)
    requires IsRun(run) && k < |Now(run).sessions|
    ensures var s, ss := Now(run), Now(run).sessions[k];
            ss.since <= |s.read| && Within(Log(ss), ForSession(Frames(s.read[ss.since..]), ss.sid))
  {
    hide IsRun, Isolation.Inv, ReadInv, ForSession, Frames, Log, Within;
    RunHears(run);
    assert HeardAll(Now(run), Now(run).sessions[k]);
  }

  /* ---- One exec of a session ---- */

  predicate Carries(j: AgentLoop.Job, sid: string, eid: string) { j.frame.sid == sid && j.frame.eid == eid }

  /** Exec i of connection c is the only one dispatched under these ids on any connection. */
  ghost predicate OnlyExec(s: State, sid: string, eid: string, c: nat, i: nat) {
    && c < |s.conns| && i < |s.conns[c].agent.jobs| && Carries(s.conns[c].agent.jobs[i], sid, eid)
    && forall d, j :: 0 <= d < |s.conns| && 0 <= j < |s.conns[d].agent.jobs|
                      && Carries(s.conns[d].agent.jobs[j], sid, eid)
         ==> d == c && j == i
  }

  lemma {:induction false} PickIsFilter(fs: seq<Frame>, sid: string)
    ensures Link.Pick(fs, sid, false) == Filter(fs, (f: Frame) => f.sid == sid)
  {
    if fs != [] {
      PickIsFilter(fs[..|fs| - 1], sid);
    }
  }

  lemma OfExecPicked(fs: seq<Frame>, sid: string, eid: string)
    ensures OfExec(Link.Pick(fs, sid, false), sid, eid) == OfExec(fs, sid, eid)
  {
    PickIsFilter(fs, sid);
    FilterTwice(fs, (f: Frame) => f.sid == sid, IsOf(sid, eid), IsOf(sid, eid));
  }

  /** Of what a connection's agent sent for the exec, the relay has read the first part. */
  lemma ReadIsPrefix(c: Link.Conn, sid: string, eid: string)
    requires Link.Inv(c) && sid != ""
    ensures OfExec(c.routed, sid, eid) <= OfExec(Link.Sent(c.agent.history), sid, eid)
  {
    hide AgentLoop.Inv, Link.Pick, OfExec, Link.Sent;
    assert Link.Flow(c, sid);
    var sent, routed := Link.Sent(c.agent.history), c.routed;
    var rest := Link.Pick(c.up, sid, false) + Link.Pick(Link.Sent(c.agent.out), sid, false);
    OfExecPicked(sent, sid, eid);
    OfExecPicked(routed, sid, eid);
    assert Link.Pick(sent, sid, false) == Link.Pick(routed, sid, false) + rest;
    OfExecConcat(Link.Pick(routed, sid, false), rest, sid, eid);
  }

  lemma OfExecConcat(a: seq<Frame>, b: seq<Frame>, sid: string, eid: string)
    ensures OfExec(a + b, sid, eid) == OfExec(a, sid, eid) + OfExec(b, sid, eid)
  {
    FilterConcat(a, b, IsOf(sid, eid));
  }

  /** A frame with the ids of an exec was sent by such an exec. */
  lemma TaggedBy(s: AgentLoop.State, t: AgentLoop.Tagged, sid: string, eid: string) returns (j: nat)
    requires AgentLoop.TagOk(s, t) && IsOf(sid, eid)(t.frame) && eid != ""
    ensures t.origin == AgentLoop.FromExec(j) && j < |s.jobs| && Carries(s.jobs[j], sid, eid)
  {
    j := t.origin.i;
  }

  lemma {:induction false} OwnFrames(s: AgentLoop.State, history: seq<AgentLoop.Tagged>, i: nat)
    requires i < |s.jobs| && s.jobs[i].frame.eid != ""
    requires forall j :: 0 <= j < |s.jobs| && Carries(s.jobs[j], s.jobs[i].frame.sid, s.jobs[i].frame.eid) ==> j == i
    requires forall k :: 0 <= k < |history| ==> AgentLoop.TagOk(s, history[k])
    ensures OfExec(Link.Sent(history), s.jobs[i].frame.sid, s.jobs[i].frame.eid) == AgentLoop.SentBy(history, i)
  {
    var sid, eid := s.jobs[i].frame.sid, s.jobs[i].frame.eid;
    if history != [] {
      var front, t := history[..|history| - 1], history[|history| - 1];
      OwnFrames(s, front, i);
      assert Link.Sent(history) == Link.Sent(front) + [t.frame];
      FilterSnoc(Link.Sent(front), t.frame, IsOf(sid, eid));
      assert AgentLoop.TagOk(s, t);
      if IsOf(sid, eid)(t.frame) {
        var j := TaggedBy(s, t, sid, eid);
      }
    }
  }

  /** Every frame of the exec that any pump has read came from its own connection. */
  lemma OnItsOwnConnection(s: State, sid: string, eid: string, c: nat, i: nat, n: nat)
    requires ConnsInv(s) && ReadInv(s) && OnlyExec(s, sid, eid, c, i) && eid != "" && sid != ""
    requires n < |s.read| && IsOf(sid, eid)(s.read[n].frame)
    ensures s.read[n].c == c
  {
    hide AgentLoop.JobsOk, AgentLoop.CancelsOk, AgentLoop.SemOk, Link.Pick, Link.Fifo, Link.Sources, AgentLoop.TagOk;
    var d, f := s.read[n].c, s.read[n].frame;
    var conn := s.conns[d];
    assert Link.Inv(conn) && Link.Flow(conn, sid);
    InFrom(s.read, n);
    Link.PickMembers(conn.routed, sid, false);
    Link.PickMembers(Link.Sent(conn.agent.history), sid, false);
    assert f in Link.Pick(Link.Sent(conn.agent.history), sid, false);
    var k :| 0 <= k < |conn.agent.history| && conn.agent.history[k].frame == f;
    var j := TaggedBy(conn.agent, conn.agent.history[k], sid, eid);
  }

  lemma InFrom(read: seq<Incoming>, n: nat)
    requires n < |read|
    ensures read[n].frame in From(read, read[n].c)
  {
    FilterMembers(read, IsFrom(read[n].c));
    var kept := Filter(read, IsFrom(read[n].c));
    assert read[n] in kept;
    var k :| 0 <= k < |kept| && kept[k] == read[n];
    assert Frames(kept)[k] == read[n].frame;
  }

  lemma {:induction false} OneConnection(read: seq<Incoming>, c: nat, sid: string, eid: string)
    requires forall n :: 0 <= n < |read| && IsOf(sid, eid)(read[n].frame) ==> read[n].c == c
    ensures OfExec(Frames(read), sid, eid) == OfExec(From(read, c), sid, eid)
  {
    if read != [] {
      var front, r := read[..|read| - 1], read[|read| - 1];
      OneConnection(front, c, sid, eid);
      assert Frames(read) == Frames(front) + [r.frame] && read == front + [r];
      FilterSnoc(Frames(front), r.frame, IsOf(sid, eid));
      FromSnoc(front, r, c);
      if r.c == c {
        FilterSnoc(From(front, c), r.frame, IsOf(sid, eid));
      } else {
        assert From(front, c) + [] == From(front, c);
      }
    }
  }

  /** All the frames of the exec that were read, by whatever pump, begin its trace. */
  lemma ExecRead(s: State, sid: string, eid: string, c: nat, i: nat)
    requires Isolation.Inv(s) && ReadInv(s) && OnlyExec(s, sid, eid, c, i)
    ensures var conn := s.conns[c];
            && sid != "" && eid != "" && conn.agent.jobs[i].frame.sid == sid
            && OfExec(Frames(s.read), sid, eid) == OfExec(conn.routed, sid, eid)
            && OfExec(conn.routed, sid, eid) <= AgentLoop.SentBy(conn.agent.history, i)
            && var job, sent := conn.agent.jobs[i], AgentLoop.SentBy(conn.agent.history, i);
            exists whole :: Grammar(job.frame, whole) && sent <= whole
  {
    hide RegInv, RouterInv, OwnerInv, CloseInv, OpenInv, SendInv, LogInv, AgentLoop.JobsOk, Link.Flows, Grammar, OfExec;
    var conn := s.conns[c];
    assert Link.Inv(conn);
    AgentRuns.JobOk(conn.agent, i);
    HasIds(conn.agent.jobs[i].frame);
    AgentTraces.PrefixOfWhole(conn.agent.jobs[i], AgentLoop.SentBy(conn.agent.history, i));
    AgentTraces.WholeGrammar(conn.agent.jobs[i]);
    OwnFrames(conn.agent, conn.agent.history, i);
    ReadIsPrefix(conn, sid, eid);
    forall n | 0 <= n < |s.read| && IsOf(sid, eid)(s.read[n].frame)
      ensures s.read[n].c == c
    {
      OnItsOwnConnection(s, sid, eid, c, i, n);
    }
    OneConnection(s.read, c, sid, eid);
  }

  lemma HasIds(f: Frame)
    ensures AgentLoop.ValidExec(f) ==> f.sid != "" && f.eid != ""
  {
  }

  /** Exec by exec: when no other exec has its ids, the frames of it that were read before the
      session was attached, and then those put in the session's channel, are what the relay
      has read of that exec, and begin what the exec sent, one trace of the grammar. */
  lemma ExecInOrder(run: seq<State>, k: nat, eid: string, c: nat, i: nat)
    requires IsRun(run) && k < |Now(run).sessions| && Listening(Now(run).sessions[k])
    requires OnlyExec(Now(run), Now(run).sessions[k].sid, eid, c, i)
    ensures var s, ss := Now(run), Now(run).sessions[k];
            var agent := s.conns[c].agent;
            && ss.since <= |s.read|
            && var heard := OfExec(Frames(s.read[..ss.since]), ss.sid, eid) + OfExec(Log(ss), ss.sid, eid);
            && heard == OfExec(s.conns[c].routed, ss.sid, eid) && heard <= AgentLoop.SentBy(agent.history, i)
            && exists whole :: Grammar(agent.jobs[i].frame, whole) && AgentLoop.SentBy(agent.history, i) <= whole
  {
    hide IsRun, Isolation.Inv, ReadInv, HeardInv, Grammar, Carries, Log;
    SessionInOrder(run, k);
    RunHears(run);
    var s, ss := Now(run), Now(run).sessions[k];
    ExecRead(s, ss.sid, eid, c, i);
    var before, after := Frames(s.read[..ss.since]), Frames(s.read[ss.since..]);
    assert Frames(s.read) == before + after by {
      assert s.read == s.read[..ss.since] + s.read[ss.since..];
    }
    OfExecConcat(before, after, ss.sid, eid);
    var agent := s.conns[c].agent;
    var whole :| Grammar(agent.jobs[i].frame, whole) && AgentLoop.SentBy(agent.history, i) <= whole;
    TraceIsRoutable(agent.jobs[i].frame, whole, before + after, ss.sid, eid);
    forall n | 0 <= n < |after| && IsOf(ss.sid, eid)(after[n])
      ensures IsFor(ss.sid)(after[n])
    {
      assert (before + after)[|before| + n] == after[n];
    }
    FilterTwice(after, IsFor(ss.sid), IsOf(ss.sid, eid), IsOf(ss.sid, eid));
  }

  /** The frames that begin a trace are of kinds the relay routes. */
  lemma TraceIsRoutable(f: Frame, whole: seq<Frame>, fs: seq<Frame>, sid: string, eid: string)
    requires Grammar(f, whole) && f.sid != "" && OfExec(fs, sid, eid) <= whole
    ensures forall n :: 0 <= n < |fs| && IsOf(sid, eid)(fs[n]) ==> Routable(fs[n])
  {
    hide Grammar, Routable;
    FilterMembers(fs, IsOf(sid, eid));
    forall n | 0 <= n < |fs| && IsOf(sid, eid)(fs[n])
      ensures Routable(fs[n])
    {
      var kept := OfExec(fs, sid, eid);
      assert fs[n] in kept;
      var k :| 0 <= k < |kept| && kept[k] == fs[n];
      Calls.GrammarKinds(f, whole, k);
    }
  }
}
