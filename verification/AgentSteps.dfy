/** What the agent's loop does with each thing that comes, in every run: which requests start an
    exec and which are refused, what each exec reports, and what is answered at once. */
module AgentSteps {
  import opened Prelude
  import opened CapBuffers
  import opened Exec
  import opened AgentLoop
  import AgentRuns
  import AgentTraces
  import Base64
  import RedactChain

  /** An exec request starts exactly when it has a session and an exec id and names a program or a
      script; it is then registered under its id, and goes on to the semaphore. */
  lemma DispatchedIff(run: seq<State>, f: Frame, ptyFails: bool)
    requires IsRun(run) && Now(run).reader.Idle?
    ensures var s, t := Now(run), Next(Now(run), Receive(f, ptyFails));
            && t.Some? && t.value.received == s.received + [f] && t.value.out == s.out
            && (|t.value.jobs| != |s.jobs|
                <==> f.kind.ExecStart? && f.sid != "" && f.eid != "" && f.exec.Some?
                     && (f.exec.value.argv != [] || f.exec.value.script.Some?))
            && (|t.value.jobs| != |s.jobs| ==>
                  && |t.value.jobs| == |s.jobs| + 1 && t.value.jobs[..|s.jobs|] == s.jobs
                  && t.value.jobs[|s.jobs|].frame == f && t.value.reader == AtSemaphore(|s.jobs|)
                  && f.eid in t.value.cancels && t.value.cancels[f.eid] == |s.jobs|)
  {
    hide IsRun, JobsOk, TagsOk, CancelsOk, SemOk;
    AgentRuns.RunInv(run);
  }

  /** It is refused exactly when eight execs hold a slot. */
  lemma RefusedIffFull(run: seq<State>)
    requires IsRun(run) && Now(run).reader.AtSemaphore?
    ensures var s, t := Now(run), Next(Now(run), TrySemaphore);
            && t.Some? && s.reader.i < |s.jobs| == |t.value.jobs|
            && (Holding(s.jobs) == 8 ==> t.value.jobs[s.reader.i].phase.Refusing? && t.value.sem == s.sem)
            && (Holding(s.jobs) < 8 ==> t.value.jobs[s.reader.i].phase.Spawned? && t.value.sem == s.sem + 1)
            && Holding(s.jobs) <= 8
  {
    hide IsRun, JobsOk, TagsOk, CancelsOk, Holding;
    AgentRuns.RunInv(run);
  }

  /** A refused exec has been answered by one exit with code -1 that says the agent is busy. */
  lemma RefusedIsToldBusy(run: seq<State>, i: nat)
    requires IsRun(run) && i < |Now(run).jobs| && Now(run).jobs[i].phase.Refused?
    ensures var f, sent := Now(run).jobs[i].frame, SentBy(Now(run).history, i);
            && |sent| == 1 && sent[0].kind.Exit? && sent[0].sid == f.sid && sent[0].eid == f.eid
            && sent[0].exit == Some(ExitInfo(-1, false)) && sent[0].error == Some("busy") && sent[0].output.None?
  {
    hide IsRun, Next, TagsOk, CancelsOk, SemOk, SentBy;
    AgentRuns.RunInv(run);
    AgentRuns.JobOk(Now(run), i);
  }

  /** The outcome of an exec whose frames have all been sent. */
  function Fate(p: Phase): Option<Outcome> {
    match p
    case Flushing(todo, oc) => if todo == [] then Some(oc) else None
    case Returned(oc) => Some(oc)
    case CancelDone(oc) => Some(oc)
    case Released(oc) => Some(oc)
    case Finished(oc) => Some(oc)
    case _ => None
  }

  /** Every other exec, once done, has reported what became of it: what its process wrote, up to
      the limit, and how it ended. */
  lemma DoneHasReported(run: seq<State>, i: nat)
    requires IsRun(run) && i < |Now(run).jobs| && Fate(Now(run).jobs[i].phase).Some?
    ensures var j, sent := Now(run).jobs[i], SentBy(Now(run).history, i);
            var oc := Fate(j.phase).value;
            && j.frame.exec.Some? && Reports(j.frame, oc, sent) && (oc.Ran? ==> oc.out == j.outW && oc.err == j.errW)
            && (oc.ScriptFailed? ==> j.frame.exec.value.script.Some?) && !oc.EmptyArgv?
  {
    hide IsRun, Next, TagsOk, CancelsOk, SemOk, SentBy, Reports, ExecFrames, WriteAll, CapOf;
    AgentRuns.RunInv(run);
    AgentRuns.JobOk(Now(run), i);
    var j, sent := Now(run).jobs[i], SentBy(Now(run).history, i);
    var oc := Fate(j.phase).value;
    assert sent + [] == sent;
    FramesReport(j.frame, oc);
    NoEmptyArgv(j.frame, oc);
  }

  lemma NoEmptyArgv(f: Frame, oc: Outcome)
    requires ValidExec(f) && Possible(f.exec.value, oc)
    ensures !oc.EmptyArgv? && (oc.ScriptFailed? ==> f.exec.value.script.Some?)
  {
  }

  /** A ping is answered by one pong, a shell that could not be started by one error of its
      session, before the reader goes on. */
  lemma AnsweredAtOnce(run: seq<State>, f: Frame, ptyFails: bool)
    requires IsRun(run) && Now(run).reader.Idle? && |Now(run).out| < 32
    requires f.kind.Ping? || (f.kind.PtyStart? && f.sid != "" && f.hasPty && ptyFails)
    ensures var s, t := Now(run), Next(Now(run), Receive(f, ptyFails));
            && t.Some? && !t.value.reader.Idle?
            && var u := Next(t.value, ReaderSend);
            && u.Some? && u.value.reader.Idle? && |u.value.out| == |s.out| + 1 && u.value.out[..|s.out|] == s.out
            && var g := u.value.out[|s.out|].frame;
            && (f.kind.Ping? ==> g.kind.Pong?)
            && (f.kind.PtyStart? ==> g.kind.Error? && g.sid == f.sid && g.error == Some("pty_start_failed"))
  {
    hide IsRun, JobsOk, TagsOk, CancelsOk, SemOk;
    AgentRuns.RunInv(run);
  }

  /** No other frame changes the execs or is answered: one the loop does not know, a pong, or a
      request that is not well formed. */
  lemma IgnoredIff(run: seq<State>, f: Frame, ptyFails: bool)
    requires IsRun(run) && Now(run).reader.Idle?
    requires f.kind in {Pong, ExecAck, Stdout, Stderr, Exit, Error, PtyExit, Unknown}
    ensures Next(Now(run), Receive(f, ptyFails)) == Some(Now(run).(received := Now(run).received + [f]))
  {
    hide IsRun, JobsOk, TagsOk, CancelsOk, SemOk;
    AgentRuns.RunInv(run);
  }
}
