/** What the relay does at each turn of a session's life, in every run. */
module RelaySteps {
  import opened Prelude
  import opened Exec
  import opened Routing
  import opened System
  import opened SystemShape
  import opened SystemInv
  import opened Isolation
  import opened Service
  import Link

  /** Some session of this id is attached. */
  ghost predicate Taken(s: State, sid: string) {
    exists k :: 0 <= k < |s.sessions| && s.sessions[k].sid == sid && !s.sessions[k].stage.Gone?
  }

  /** An operator may attach under an id exactly when it was minted for operators and for the
      device of the connection; the session is taken up, empty and open, exactly when no session
      of that id is attached, and nothing changes otherwise. */
  lemma AttachIff(run: seq<State>, sid: string, c: nat)
    requires IsRun(run) && !Now(run).crashed && c < |Now(run).conns|
    ensures var s, t := Now(run), Next(Now(run), Attach(sid, c));
            && (t.Some? <==> sid in s.owner && s.owner[sid] == Owner(s.conns[c].device, false))
            && (t.Some? && Taken(s, sid) ==> t.value == s)
            && (t.Some? && !Taken(s, sid) ==>
                  var n := |s.sessions|;
                  && |t.value.sessions| == n + 1 && t.value.sessions[..n] == s.sessions
                  && t.value.sessions[n].sid == sid && t.value.sessions[n].conn == c && t.value.sessions[n].stage.Live?
                  && t.value.sessions[n].box == Box([], false, 0) && sid in t.value.router && t.value.router[sid] == n
                  && t.value.attaches == s.attaches + multiset{sid} && t.value.conns == s.conns)
  {
    hide IsRun, ConnsInv, RegInv, OwnerInv, CloseInv, OpenInv, SendInv, LogInv, NextService;
    RunInv(run);
    var s := Now(run);
    AttachedIff(s, sid);
    assert s.sessions + [Session(sid, c, None, FRESH, [], Live, None, true, |s.read|, None)] != s.sessions;
  }

  lemma AttachedIff(s: State, sid: string)
    requires RouterInv(s)
    ensures sid in s.router <==> Taken(s, sid)
  {
    hide BoxOk;
    if sid in s.router {
      assert s.sessions[s.router[sid]].sid == sid;
    }
  }

  /** A call's request goes out, and the call waits, exactly when its connection is current and has
      room; on a full channel the call ends at once without an answer, and on a connection no
      longer current the send panics, which ends the call; neither sends anything. */
  lemma RequestGoesOutIff(run: seq<State>, k: nat)
    requires IsRun(run) && Next(Now(run), ServiceSend(k)).Some?
    ensures var s, t := Now(run), Next(Now(run), ServiceSend(k)).value;
            && IsService(s, k) && IsService(t, k) && s.sessions[k].stage.Starting?
            && var c := s.sessions[k].conn;
            && (Current(s, c) && |s.conns[c].outbound| < s.conns[c].bufSize ==>
                  && t.sessions[k] == s.sessions[k].(stage := Live)
                  && t.conns[c].outbound == s.conns[c].outbound + [s.sessions[k].request.value])
            && (Current(s, c) && |s.conns[c].outbound| >= s.conns[c].bufSize ==>
                  t.sessions[k].stage.Ended? && t.sessions[k].ending == Some(Unsent) && t.conns == s.conns)
            && (!Current(s, c) ==>
                  t.sessions[k].stage.Ended? && t.sessions[k].ending == Some(Panicked) && t.conns == s.conns)
            && t.crashed == s.crashed
  {
    hide IsRun, ConnsInv, RouterInv, OwnerInv, CloseInv, OpenInv, SendInv, LogInv, NextOperator;
    RunInv(run);
    var s := Now(run);
    var c := s.sessions[k].conn;
    assert s.conns[c].open == Current(s, c);
  }

  /** When its deadline passes a waiting call returns what has been collected so far, with code -1
      (or panics, if its connection is no longer current). */
  lemma TimeoutReturnsPartial(run: seq<State>, k: nat)
    requires IsRun(run) && Next(Now(run), ServiceTimeout(k)).Some?
    ensures var s, t := Now(run), Next(Now(run), ServiceTimeout(k)).value;
            && IsService(s, k) && k < |t.sessions| && s.sessions[k].stage.Live? && t.sessions[k].stage.Ended?
            && var taken := s.sessions[k].taken;
            t.sessions[k].ending
            == Some(if Current(s, s.sessions[k].conn)
                    then TimedOut(ExecRes(-1, Outputs(taken, Stdout), Outputs(taken, Stderr), false)) else Panicked)
  {
    hide IsRun, Next, CallsInv, Isolation.Inv, Collect, Outputs;
    RunCalls(run);
    TimeoutIs(Now(run), k);
    RouterOf(Now(run));
    CollectsStreams(Now(run).sessions[k].taken);
    WaitingHasNoExit(Now(run), k);
  }

  lemma WaitingHasNoExit(s: State, k: nat)
    requires CallsInv(s) && IsService(s, k) && s.sessions[k].stage.Live?
    ensures Collect(s.sessions[k].taken).res.None?
  {
    hide Collect, Asked, Read;
    assert CallInv(s, k);
  }

  lemma TimeoutIs(s: State, k: nat)
    requires Isolation.Inv(s) && Next(s, ServiceTimeout(k)).Some?
    ensures IsService(s, k) && s.sessions[k].stage.Live?
    ensures var t := Next(s, ServiceTimeout(k)).value;
            && k < |t.sessions|
            && var ss := s.sessions[k];
            t.sessions[k] == Done(ss, if Current(s, ss.conn) then TimedOut(Partial(ss.taken)) else Panicked)
  {
    hide ConnsInv, RouterInv, OwnerInv, CloseInv, OpenInv, SendInv, LogInv, NextOperator, Partial, TrySend, Teardown;
    assert s.conns[s.sessions[k].conn].open == Current(s, s.sessions[k].conn);
  }

  /** A frame an operator may send is accepted by its connection exactly when that is current and
      has room; a full channel ends the operator's pump, and nothing is sent. */
  lemma OperatorFrameGoesOutIff(run: seq<State>, k: nat, f: Frame)
    requires IsRun(run) && !Now(run).crashed && k < |Now(run).sessions|
    requires Now(run).sessions[k].request.None? && Now(run).sessions[k].reading
    requires Stamp(f, Now(run).sessions[k].sid).Some? && Current(Now(run), Now(run).sessions[k].conn)
    ensures var s, t := Now(run), Next(Now(run), FromOperator(k, f));
            && t.Some? && |t.value.sessions| == |s.sessions| && |t.value.conns| == |s.conns| && !t.value.crashed
            && var c := s.sessions[k].conn;
            if |s.conns[c].outbound| < s.conns[c].bufSize
            then
              && t.value.sessions == s.sessions
              && t.value.conns[c].outbound == s.conns[c].outbound + [Stamp(f, s.sessions[k].sid).value]
            else
              && t.value.conns == s.conns && !t.value.sessions[k].reading
              && t.value.sessions == s.sessions[k := t.value.sessions[k]]
  {
    hide IsRun, ConnsInv, RouterInv, OwnerInv, CloseInv, OpenInv, SendInv, LogInv, NextService, Stamp;
    RunInv(run);
    var s := Now(run);
    assert s.conns[s.sessions[k].conn].open == Current(s, s.sessions[k].conn);
  }
}
