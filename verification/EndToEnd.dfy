/** The main results about the relay and its agents. Each holds in the state any run reaches. */
module EndToEnd {
  import opened Prelude
  import opened CapBuffers
  import opened Exec
  import opened Routing
  import opened System
  import opened SystemShape
  import opened SystemInv
  import opened Isolation
  import opened Service
  import AgentLoop
  import AgentTraces
  import AgentStops
  import Link
  import RedactChain
  import Redaction
  import Secrets
  import Utf8

  /* ---- Isolation ---- */

  /** Every frame ever put in a session's channel carries the session's id, and was caused by an
      exec (of the same exec id) or a pty.start that Send accepted, under that id, on a
      connection of the device the id was issued for. */
  lemma SessionIsolation(run: seq<State>, k: nat, i: nat)
    requires IsRun(run) && k < |Now(run).sessions| && i < |Log(Now(run).sessions[k])|
    ensures var s := Now(run);
            var f, sid := Log(s.sessions[k])[i], s.sessions[k].sid;
            && f.sid == sid && sid in s.owner
            && exists c, j :: 0 <= c < |s.conns| && 0 <= j < |s.conns[c].sentDown|
                && s.conns[c].device == s.owner[sid].device
                && Requests(s.conns[c].sentDown[j], f)
  {
    hide Next, IsRun, ConnsInv, RegInv, RouterInv, CloseInv, SendInv, AgentLoop.ValidExec;
    RunInv(run);
    var s := Now(run);
    var f := Log(s.sessions[k])[i];
    assert AllBelong(s, s.sessions[k], Log(s.sessions[k]));
    assert Belongs(s, s.sessions[k], f) && OwnedBy(s, s.sessions[k]);
    var c :| 0 <= c < |s.conns| && s.conns[c].device == s.conns[s.sessions[k].conn].device
             && Link.Caused(s.conns[c].sentDown, f);
    var j :| 0 <= j < |s.conns[c].sentDown| && Requests(s.conns[c].sentDown[j], f);
  }

  /** g asks for f: the exec whose answer f is part of, or the shell f came from. */
  predicate Requests(g: Frame, f: Frame) {
    g.sid == f.sid && ((AgentLoop.ValidExec(g) && g.eid == f.eid) || (g.kind.PtyStart? && f.eid == ""))
  }

  /** A service call only ever receives its own exec's frames, in the order of one trace; it
      never finds its session closed for being too slow. */
  lemma ServiceSeesOnlyItsExec(run: seq<State>, k: nat)
    requires IsRun(run) && IsService(Now(run), k)
    ensures var ss := Now(run).sessions[k];
            && (exists whole :: Grammar(ss.request.value, whole) && Log(ss) <= whole)
            && (ss.box.closed ==> ss.stage.Gone?)
            && (ss.ending.Some? ==> !ss.ending.value.SawClose?)
  {
    hide Next, IsRun, Isolation.Inv, Grammar, Asked, Read;
    RunCalls(run);
    var s := Now(run);
    CallOf(s, k);
    ReadIsTrace(s, k);
    NeverSawClose(s.sessions[k]);
  }

  lemma NeverSawClose(ss: Session)
    requires CallOk(ss)
    ensures ss.ending.Some? ==> !ss.ending.value.SawClose?
  {
    hide Collect, Partial;
    assert ss.stage.Starting? || ss.stage.Live? || ss.stage.Ended? || ss.stage.Gone?;
  }

  lemma CallOf(s: State, k: nat)
    requires CallsInv(s) && IsService(s, k)
    ensures CallInv(s, k)
  {
  }

  /* ---- The result of a service call ---- */

  /** res is what this exec's process produced: the redaction of the first bytes of each stream,
      up to the limit the frame names (1 MiB if it names none), the exit code, and the
      truncation mark exactly when a write reached past the limit. An exec that could not start,
      or was refused because eight were running, gives -1 and nothing. */
  ghost predicate ResultOf(j: AgentLoop.Job, res: ExecRes) {
    match FateOf(j.phase)
    case Some(Ran(out, err, code)) =>
      && j.frame.exec.Some?
      && var cap := if j.frame.exec.value.outputCap > 0 then j.frame.exec.value.outputCap else 1_048_576;
      && out == j.outW && err == j.errW && res.exitCode == code
      && res.stdout == RedactChain.Redact(Take(Flatten(out), cap))
      && res.stderr == RedactChain.Redact(Take(Flatten(err), cap))
      && (res.truncated <==> Truncates(cap, out) || Truncates(cap, err))
    case Some(oc) => j.frame.exec.Some? && Possible(j.frame.exec.value, oc) && res == ExecRes(-1, [], [], false)
    case None => j.phase.Refused? && res == ExecRes(-1, [], [], false)
  }

  function FateOf(p: AgentLoop.Phase): Option<Outcome> {
    match p
    case Flushing(_, oc) => Some(oc)
    case Returned(oc) => Some(oc)
    case CancelDone(oc) => Some(oc)
    case Released(oc) => Some(oc)
    case Finished(oc) => Some(oc)
    case _ => None
  }

  /** The answer to a request, collected, is the result of its exec. */
  lemma AnswerIsResult(j: AgentLoop.Job, trace: seq<Frame>)
    requires AgentLoop.ValidExec(j.frame) && Link.Answered(j, trace) && Collect(trace).res.Some?
    ensures ResultOf(j, Collect(trace).res.value)
  {
    hide ExecFrames, RedactChain.Redact, WriteAll, Collect, Truncates, Take, Flatten, Possible;
    match FateOf(j.phase)
    case Some(oc) =>
      CollectsExec(j.frame, oc);
    case None => CollectsBusy(j.frame);
  }

  /** Whatever the process wrote, no AWS key or secret, GitHub, Slack, OpenAI or Vault token, no
      JWT and no PEM private key is left in the result. */
  lemma NoSecretsInResult(j: AgentLoop.Job, res: ExecRes)
    requires ResultOf(j, res)
    ensures Secrets.NoSecret(Utf8.Decode(res.stdout)) && Secrets.NoSecret(Utf8.Decode(res.stderr))
    ensures forall re :: re in RedactChain.PREFIXED ==>
              Redaction.Clean(re, Utf8.Decode(res.stdout)) && Redaction.Clean(re, Utf8.Decode(res.stderr))
  {
    hide RedactChain.Redact, Redaction.Clean, Utf8.Decode, Secrets.NoSecret, Take, Flatten, Truncates;
    RedactEmpty();
    Secrets.RedactedHasNoSecret([]);
    RedactChain.NothingPrefixedIsLeft([]);
    if FateOf(j.phase).Some? && FateOf(j.phase).value.Ran? {
      var oc, named := FateOf(j.phase).value, j.frame.exec.value.outputCap;
      var cap := if named > 0 then named else 1_048_576;
      Secrets.RedactedHasNoSecret(Take(Flatten(oc.out), cap));
      Secrets.RedactedHasNoSecret(Take(Flatten(oc.err), cap));
      RedactChain.NothingPrefixedIsLeft(Take(Flatten(oc.out), cap));
      RedactChain.NothingPrefixedIsLeft(Take(Flatten(oc.err), cap));
    }
  }

  lemma CollectsBusy(f: Frame)
    ensures Collect([FailFrame(f, "busy")]).res == Some(ExecRes(-1, [], [], false))
  {
    CollectFirst(FailFrame(f, "busy"));
  }

  /** End to end: when a service call returns with an exit, the agent ran exactly one exec for
      it, the one asked for, and the result is what that exec's process produced. */
  lemma ResultRefinesProcess(run: seq<State>, k: nat, res: ExecRes)
    requires IsRun(run) && IsService(Now(run), k)
    requires Now(run).sessions[k].ending == Some(Exited(res))
    ensures var s := Now(run);
            var jobs, ss := ConnOf(s, k).agent.jobs, s.sessions[k];
            exists i: nat :: Link.RunsAs(jobs, ss.request.value, i) && ResultOf(jobs[i], res)
                             && ss.call.Some? && Fulfils(jobs[i].frame, ss.sid, ss.call.value)
  {
    hide Next, IsRun, Isolation.Inv, Grammar, Asked, Read, Link.Inv, Link.OnlyRequest, Link.Answered, ResultOf;
    hide Collect, AgentLoop.ValidExec;
    RunCalls(run);
    var s := Now(run);
    CallOf(s, k);
    var ss, conn := s.sessions[k], ConnOf(s, k);
    var f := ss.request.value;
    ExitedIsRead(s, k);
    RouterOf(s);
    Link.SessionAnswered(conn, f);
    var i: nat :| Link.RunsAs(conn.agent.jobs, f, i) && Link.Answered(conn.agent.jobs[i], ss.taken);
    JobFrame(conn, f, i);
    assert OwnedBy(s, ss);
    AnswerIsResult(conn.agent.jobs[i], ss.taken);
  }

  lemma JobFrame(c: Link.Conn, f: Frame, i: nat)
    requires Link.RunsAs(c.agent.jobs, f, i) && Link.OnlyRequest(c, f)
    ensures i < |c.agent.jobs| && c.agent.jobs[i].frame == f && AgentLoop.ValidExec(f)
  {
  }

  /** A call that has its exit has all the agent ever sends for it. */
  lemma ExitedIsRead(s: State, k: nat)
    requires Isolation.Inv(s) && IsService(s, k) && CallInv(s, k)
    requires s.sessions[k].ending.Some? && s.sessions[k].ending.value.Exited?
    ensures var conn, ss := ConnOf(s, k), s.sessions[k];
            && Link.Inv(conn) && Link.OnlyRequest(conn, ss.request.value)
            && Link.AllSent(conn, ss.request.value.sid) == ss.taken && Link.EndsInExit(ss.taken)
            && Collect(ss.taken).res == Some(ss.ending.value.res)
  {
    hide Isolation.Inv, Collect, Asked, Read, Grammar, Link.OnlyRequest, Link.Inv;
    RequestIsOnly(s, k);
    ReadIsTrace(s, k);
    RouterOf(s);
    var ss, conn := s.sessions[k], ConnOf(s, k);
    var all := Link.AllSent(conn, ss.request.value.sid);
    var whole :| Grammar(ss.request.value, whole) && all <= whole;
    var n := |ss.taken| - 1;
    assert ss.taken <= all;
    Link.ExitIsLast(ss.request.value, whole, n) by {
      assert whole[n] == ss.taken[n];
    }
    assert ss.taken == all;
  }

  /** Nothing is lost on the way: when the agent is done with the request and its connection
      has drained, a call still waiting has its exit in the channel. */
  lemma NothingLost(run: seq<State>, k: nat, i: nat)
    requires IsRun(run) && IsService(Now(run), k) && Now(run).sessions[k].stage.Live?
    requires Link.RunsAs(ConnOf(Now(run), k).agent.jobs, Now(run).sessions[k].request.value, i)
    requires AgentTraces.Over(ConnOf(Now(run), k).agent.jobs[i].phase)
    requires ConnOf(Now(run), k).up == [] && ConnOf(Now(run), k).agent.out == []
    ensures Link.EndsInExit(Now(run).sessions[k].box.queue)
  {
    hide Next, IsRun, Isolation.Inv, Collect, Asked, Grammar, Link.OnlyRequest, Link.Inv, Link.Pick, AgentTraces.Over;
    hide Link.Answered;
    RunCalls(run);
    var s := Now(run);
    CallOf(s, k);
    RouterOf(s);
    RequestIsOnly(s, k);
    ReadIsTrace(s, k);
    var ss, conn := s.sessions[k], ConnOf(s, k);
    Link.SessionComplete(conn, ss.request.value, i);
    PickNothing(ss.request.value.sid);
    assert Link.Sent(conn.agent.out) == [];
    assert Log(ss) == Link.AllSent(conn, ss.request.value.sid);
    JobFrame(conn, ss.request.value, i);
    ExecHasPayload(ss.request.value);
    AnswerEndsInExit(conn.agent.jobs[i], Log(ss));
    if ss.box.queue == [] {
      assert Log(ss) == ss.taken;
      ExitCollected(ss.taken);
    }
  }

  lemma PickNothing(sid: string)
    ensures Link.Pick([], sid, false) == []
  {
  }

  lemma AnswerEndsInExit(j: AgentLoop.Job, trace: seq<Frame>)
    requires Link.Answered(j, trace) && j.frame.exec.Some?
    ensures Link.EndsInExit(trace)
  {
    hide ExecFrames, Possible;
    match FateOf(j.phase)
    case Some(oc) => ExecFramesGrammar(j.frame, oc);
    case None =>
  }

  lemma ExitCollected(fs: seq<Frame>)
    requires Link.EndsInExit(fs)
    ensures Collect(fs).res.Some?
  {
  }

  /* ---- Router and registry ---- */

  /** There is one attached session per id, the one the router has; detach, though keyed by
      the id alone, removes and closes just its own handler's session; no session's
      `closed` is closed twice; and session.close events account for all operator attaches,
      in all and id by id. */
  lemma RouterOwnership(run: seq<State>, k: nat)
    requires IsRun(run) && k < |Now(run).sessions|
    ensures var s := Now(run);
            var ss := s.sessions[k];
            && (!ss.stage.Gone? <==> ss.sid in s.router && s.router[ss.sid] == k)
            && (forall j :: 0 <= j < |s.sessions| && j != k && s.sessions[j].sid == ss.sid && !ss.stage.Gone? ==>
                  s.sessions[j].stage.Gone?)
            && ss.box.closes <= 1 && (ss.stage.Gone? ==> ss.box.closes == 1)
            && |s.closes| + OpenCount(s.sessions, None) == |s.attaches|
            && s.closes[ss.sid] + OpenCount(s.sessions, Some(ss.sid)) == s.attaches[ss.sid]
    ensures var s := Now(run);
            var t := Next(s, Detach(k));
            t.Some? ==>
              && t.value.router == s.router - {s.sessions[k].sid} && s.sessions[k].sid in s.router
              && t.value.sessions == s.sessions[k := t.value.sessions[k]] && t.value.sessions[k].box.closed
  {
    hide IsRun, NextService, OpenCount, ConnsInv, RegInv, OwnerInv, SendInv, LogInv;
    RunInv(run);
    var s := Now(run);
    assert Balanced(s, None) && Balanced(s, Some(s.sessions[k].sid));
    if Next(s, Detach(k)).Some? {
      DetachesOwn(s, k);
    }
  }

  /** In both directions nothing is lost, duplicated or reordered: the frames Send accepted on a
      connection are those the agent has received, then those under way; the frames the
      agent's goroutines sent are those the relay has read, then those under way (the
      keep-alives of the two pumps apart). */
  lemma LinksAreFifo(run: seq<State>, c: nat)
    requires IsRun(run) && c < |Now(run).conns|
    ensures var conn := Now(run).conns[c];
            && conn.sentDown
               == Link.NonPing(conn.agent.received) + Link.NonPing(conn.down) + Link.NonPing(conn.outbound)
            && Link.NonPing(Link.Sent(conn.agent.history))
               == Link.NonPing(conn.routed) + Link.NonPing(conn.up) + Link.NonPing(Link.Sent(conn.agent.out))
  {
    hide IsRun, RegInv, RouterInv, OwnerInv, CloseInv, OpenInv, LogInv, AgentLoop.Inv, AgentStops.Inv, Link.Flows;
    hide Link.Sources, Link.NonPing;
    RunInv(run);
    var s := Now(run);
    var conn := s.conns[c];
    assert Link.Inv(conn);
    forall i | 0 <= i < |conn.sentDown|
      ensures !conn.sentDown[i].kind.Ping?
    {
      assert AllStamped(s, c, conn.sentDown);
      assert Stamped(s, c, conn.sentDown[i]);
    }
    AllNonPing(conn.sentDown);
  }

  lemma {:induction false} AllNonPing(fs: seq<Frame>)
    requires forall i :: 0 <= i < |fs| ==> !fs[i].kind.Ping?
    ensures Link.NonPing(fs) == fs
  {
    if fs != [] {
      AllNonPing(fs[..|fs| - 1]);
      assert fs == fs[..|fs| - 1] + [fs[|fs| - 1]];
    }
  }

  /** For an id minted for operators there is one session.open. Its session.close events match
      it exactly when one operator session of the id has ended: it was attached once and has
      ended, or twice and the second is still open. */
  lemma CloseMatchesOpenIff(run: seq<State>, sid: string)
    requires IsRun(run) && sid in Now(run).owner && !Now(run).owner[sid].service
    ensures var s := Now(run);
            && s.opens[sid] == 1
            && (s.closes[sid] == s.opens[sid] <==> s.attaches[sid] == if HasOpen(s, sid) then 2 else 1)
  {
    hide IsRun, OpenCount, ConnsInv, RegInv, OwnerInv, SendInv, LogInv, RouterInv;
    RunInv(run);
    var s := Now(run);
    assert Balanced(s, Some(sid));
    OpenAtMostOne(s, |s.sessions|, sid);
    assert s.sessions[..|s.sessions|] == s.sessions;
  }

  ghost predicate HasOpen(s: State, sid: string) {
    exists k :: 0 <= k < |s.sessions| && StillOpen(s.sessions[k], Some(sid))
  }

  /** A device has one current connection. A connection's channel is open exactly while it is
      current, and is closed exactly once when it stops being, by a newer registration or by
      its own disconnect. Closing it again never happens, so nothing but an operator's send
      can take the relay down. */
  lemma ChannelsCloseOnce(run: seq<State>, a: Action)
    requires IsRun(run)
    ensures var s := Now(run);
            && (forall c :: 0 <= c < |s.conns| ==>
                  s.conns[c].open == Current(s, c) && s.conns[c].closes == if Current(s, c) then 0 else 1)
            && (Next(s, a).Some? && Next(s, a).value.crashed ==> a.FromOperator?)
  {
    hide IsRun, ConnsInv, RouterInv, OwnerInv, CloseInv, OpenInv, SendInv, LogInv, NextService, NextOperator, OnConn;
    hide CloseOutbound;
    RunInv(run);
    var s := Now(run);
    assert forall c :: 0 <= c < |s.conns| ==> s.conns[c].open == Current(s, c) && ClosedOnce(s.conns[c]);
    if Next(s, a).Some? && Next(s, a).value.crashed {
      if Operator(a) {
        OperatorCrash(s, a);
      } else if SystemShape.Service(a) {
        ServiceNoCrash(s, a);
      } else if a.Connect? && a.device in s.reg {
        ClosesCleanly(s, s.reg[a.device]);
      } else if a.Disconnect? {
        ClosesCleanly(s, a.c);
      }
    }
  }

  lemma ClosesCleanly(s: State, c: nat)
    requires c < |s.conns| && s.conns[c].open
    ensures CloseOutbound(s, c).crashed == s.crashed
  {
  }

  lemma OperatorCrash(s: State, a: Action)
    requires !s.crashed && NextOperator(s, a).Some? && NextOperator(s, a).value.crashed
    ensures a.FromOperator?
  {
    hide TrySend, Stamp, Detached, Forward;
  }

  lemma ServiceNoCrash(s: State, a: Action)
    requires NextService(s, a).Some?
    ensures NextService(s, a).value.crashed == s.crashed
  {
    hide TrySend, Consumed, ServiceFrame, Done;
  }

  /** A frame of an operator whose pump is reading panics, and so ends the relay, exactly when
      it is one the relay passes on and the session's connection is no longer current:
      replaced, or disconnected. */
  lemma SendPanicsIff(run: seq<State>, k: nat, f: Frame)
    requires IsRun(run) && !Now(run).crashed && k < |Now(run).sessions|
    requires Now(run).sessions[k].request.None? && Now(run).sessions[k].reading
    ensures var s := Now(run);
            var t := Next(s, FromOperator(k, f));
            t.Some? && (t.value.crashed <==> Stamp(f, s.sessions[k].sid).Some? && !Current(s, s.sessions[k].conn))
  {
    hide IsRun, ConnsInv, RouterInv, CloseInv, OpenInv, SendInv, LogInv, NextService, TrySend, Stamp;
    RunInv(run);
    var s := Now(run);
    assert OwnedBy(s, s.sessions[k]);
    assert s.conns[s.sessions[k].conn].open == Current(s, s.sessions[k].conn);
  }

  /** The frame that tells the agent to stop what session k had it do: the shell when an
      operator leaves, the exec when a call times out. */
  function Stop(ss: Session): Frame {
    Teardown(ss.sid, if ss.request.Some? then ss.request.value.eid else "")
  }

  /** When an operator session ends, or a call times out, it is over in any case; and the agent is
      told so exactly when the connection is still current and its channel has room. */
  lemma EndTellsAgent(run: seq<State>, k: nat, a: Action)
    requires IsRun(run) && k < |Now(run).sessions| && (a == EndSession(k) || a == ServiceTimeout(k))
    requires Next(Now(run), a).Some?
    ensures var s, t := Now(run), Next(Now(run), a).value;
            var ss, c := s.sessions[k], s.sessions[k].conn;
            && c < |s.conns| && k < |t.sessions| && (t.sessions[k].stage.Leaving? || t.sessions[k].stage.Ended?)
            && (if Current(s, c) && |s.conns[c].outbound| < s.conns[c].bufSize
                then
                  && t.conns == s.conns[c := t.conns[c]]
                  && t.conns[c].outbound == s.conns[c].outbound + [Stop(ss)]
                  && t.conns[c].sentDown == s.conns[c].sentDown + [Stop(ss)]
                else t.conns == s.conns)
            && Stop(ss).kind.Cancel? && Stop(ss).sid == ss.sid
            && Stop(ss).eid == if a.EndSession? then "" else if ss.request.Some? then ss.request.value.eid else ""
  {
    hide IsRun, ConnsInv, RouterInv, OwnerInv, CloseInv, SendInv, LogInv;
    RunInv(run);
    var s := Now(run);
    HasConn(s, k);
    assert s.conns[s.sessions[k].conn].open == Current(s, s.sessions[k].conn);
  }

  lemma HasConn(s: State, k: nat)
    requires OwnerInv(s) && k < |s.sessions|
    ensures s.sessions[k].conn < |s.conns|
  {
    assert OwnedBy(s, s.sessions[k]);
  }

  /** So a timed-out call does not leave its process running: once its cancel was accepted and
      the connection has drained towards the agent, the exec, if it was dispatched under an
      id of its own, has been cancelled. */
  lemma TimeoutStopsExec(run: seq<State>, k: nat, i: nat)
    requires IsRun(run) && IsService(Now(run), k) && Stop(Now(run).sessions[k]) in ConnOf(Now(run), k).sentDown
    requires Link.RunsAs(ConnOf(Now(run), k).agent.jobs, Now(run).sessions[k].request.value, i)
    requires AgentLoop.DistinctIds(ConnOf(Now(run), k).agent.jobs)
    requires ConnOf(Now(run), k).outbound == [] && ConnOf(Now(run), k).down == []
    ensures ConnOf(Now(run), k).agent.jobs[i].cancelled
  {
    hide IsRun, Isolation.Inv, Asked, Read, CallOk, Link.Inv, AgentStops.Before, AgentLoop.DistinctIds;
    RunCalls(run);
    var s := Now(run);
    CallOf(s, k);
    RouterOf(s);
    var ss, conn := s.sessions[k], ConnOf(s, k);
    assert Link.Inv(conn);
    Link.StopTakesEffect(conn, ss.request.value, i, Stop(ss));
  }

  /* ---- Limits ---- */

  /** What an operator may send: other kinds, and execs with an empty argv, are dropped; all else
      passes with the session's own id and within the limits, unchanged if it was within
      them already, so that passing it again changes nothing. */
  lemma StampLaws(f: Frame, sid: string)
    ensures Stamp(f, sid).None? <==> f.kind !in {ExecStart, Cancel, PtyStart, PtyData, PtyResize}
                                     || (f.kind.ExecStart? && f.exec.Some? && f.exec.value.argv == [])
    ensures Stamp(f, sid).Some? ==>
              var g := Stamp(f, sid).value;
              && Limited(g) && g.sid == sid && g.kind == f.kind && g.eid == f.eid
              && (Limited(f) ==> g == f.(sid := sid)) && Stamp(g, sid) == Some(g)
    ensures Stamp(f, sid).Some? && f.kind.ExecStart? && f.exec.Some? ==>
              var e := f.exec.value;
              var timeout := if 1 <= e.timeoutMs <= 600_000 then e.timeoutMs else 60_000;
              var cap := if 1 <= e.outputCap <= 8_388_608 then e.outputCap else 1_048_576;
              Stamp(f, sid) == Some(f.(sid := sid, exec := Some(ExecSpec(e.argv, e.script, timeout, cap))))
    ensures Stamp(f, sid).Some? && !(f.kind.ExecStart? && f.exec.Some?) ==> Stamp(f, sid) == Some(f.(sid := sid))
  {
  }

  /** Every exec the relay lets through asks for a bounded time and amount of output, so the
      running execs of any one connection never hold more than 128 MiB of output. */
  lemma MemoryBound(run: seq<State>, c: nat)
    requires IsRun(run) && c < |Now(run).conns|
    ensures var conn := Now(run).conns[c];
            && (forall i :: 0 <= i < |conn.sentDown| ==> Limited(conn.sentDown[i]))
            && AgentTraces.Buffered(conn.agent.jobs) <= 128 * 1_048_576
  {
    hide Next, IsRun, RegInv, RouterInv, OwnerInv, CloseInv, LogInv, AgentLoop.Inv, AgentTraces.Buffered;
    hide AgentLoop.ValidExec;
    RunInv(run);
    var s := Now(run);
    var conn := s.conns[c];
    assert Link.Inv(conn);
    forall i | 0 <= i < |conn.sentDown|
      ensures Limited(conn.sentDown[i])
    {
      assert AllStamped(s, c, conn.sentDown);
      assert Stamped(s, c, conn.sentDown[i]);
    }
    forall i | 0 <= i < |conn.agent.jobs|
      ensures conn.agent.jobs[i].frame.exec.Some? && CapOf(conn.agent.jobs[i].frame) <= MAX_CAP
    {
      Link.RequestAccepted(conn, i);
      ExecHasPayload(conn.agent.jobs[i].frame);
    }
    AgentTraces.InvMemory(conn.agent, MAX_CAP);
  }

  lemma ExecHasPayload(f: Frame)
    ensures AgentLoop.ValidExec(f) ==> f.kind.ExecStart? && f.exec.Some?
  {
  }
}
