/** The end of one agent connection. runOnce closes `out` when its reader returns (its deferred
    calls run in reverse order, so before the context is cancelled), while exec goroutines
    may still have frames to send; a send on a closed channel panics. */
module AgentPanics {
  import opened Prelude
  import opened CapBuffers
  import opened Exec
  import opened AgentLoop
  import Runs
  import AgentRuns

  /** The goroutine of the exec has a frame to send before it can return. */
  predicate Pending(p: Phase) {
    p.Spawned? || p.Live? || (p.Flushing? && p.todo != [])
  }

  /* ---- After the reader has returned ---- */

  /** No step ends or begins a goroutine's need to send, and only one in need panics. */
  lemma StoppedStep(s: State, a: Action, t: State, i: nat)
    requires s.reader.Stopped? && Next(s, a) == Some(t) && i < |s.jobs|
    ensures t.reader.Stopped? && |t.jobs| == |s.jobs|
    ensures Pending(t.jobs[i].phase) == Pending(s.jobs[i].phase)
    ensures t.crash == Some(FromExec(i)) ==> Pending(s.jobs[i].phase)
  {
    hide JobStep, Write, Possible, AckFrame, FailFrame, OnFrame, Room;
    if Sender(s, a).None? && !a.Drain? && !a.PtyEmit? {
      GoroutineStep(s, a, t, i);
    }
  }

  lemma GoroutineStep(s: State, a: Action, t: State, i: nat)
    requires JobStep(s, a) == Some(t) && Sender(s, a).None? && i < |s.jobs|
    ensures t.reader == s.reader && |t.jobs| == |s.jobs| && t.crash == s.crash
    ensures Pending(t.jobs[i].phase) == Pending(s.jobs[i].phase)
  {
    hide Write, Possible, CapOf, Room, AckFrame, FailFrame, OutputFrame, ExitFrame;
  }

  lemma {:induction false} Settled(run: seq<State>, longer: seq<State>, i: nat)
    requires IsRun(run) && IsRun(longer) && run <= longer && Now(run).reader.Stopped? && i < |Now(run).jobs|
    requires Now(run).crash.None?
    ensures Now(longer).reader.Stopped? && |Now(longer).jobs| == |Now(run).jobs|
    ensures Pending(Now(longer).jobs[i].phase) == Pending(Now(run).jobs[i].phase)
    ensures Now(longer).crash == Some(FromExec(i)) ==> Pending(Now(run).jobs[i].phase)
    decreases |longer|
  {
    hide Next, Pending, IsRun;
    if run != longer {
      var front := longer[..|longer| - 1];
      NotEmpty(run);
      var a := Shorter(longer);
      Settled(run, front, i);
      StoppedStep(Now(front), a, Now(longer), i);
    }
  }

  lemma NotEmpty(run: seq<State>)
    requires IsRun(run)
    ensures run != []
  {
  }

  /* ---- It can come to a panic ---- */

  lemma OneMore(run: seq<State>, a: Action, t: State)
    requires IsRun(run) && Next(Now(run), a) == Some(t)
    ensures IsRun(run + [t]) && Now(run + [t]) == t
  {
    hide Next;
    assert Steps(Now(run), t);
    Runs.Longer(run, t, INIT, Steps);
  }

  /** Its next step, or the one after it, is a send. */
  lemma NextSend(s: State, i: nat) returns (a: Action, t: State)
    requires s.reader.Stopped? && s.crash.None? && i < |s.jobs| && ValidExec(s.jobs[i].frame)
             && Pending(s.jobs[i].phase)
    ensures Next(s, a) == Some(t)
    ensures t == s.(crash := Some(FromExec(i)))
            || (t.reader.Stopped? && t.crash.None? && i < |t.jobs| && t.jobs[i].phase.Flushing?
                && t.jobs[i].phase.todo != [])
  {
    hide Write, CapOf, AckFrame, FailFrame, OutputFrame, ExitFrame;
    match s.jobs[i].phase {
      case Spawned => a := Start(i, Some(StartFailed));
      case Live(acked) => a := if acked then End(i, 0) else SendAck(i);
      case Flushing(_, _) => a := SendNext(i);
    }
    t := Next(s, a).value;
  }

  lemma CanPanic(run: seq<State>, i: nat) returns (longer: seq<State>)
    requires IsRun(run) && Now(run).reader.Stopped? && Now(run).crash.None? && i < |Now(run).jobs|
    requires Pending(Now(run).jobs[i].phase)
    ensures IsRun(longer) && run <= longer && Now(longer).crash == Some(FromExec(i))
  {
    hide Next, IsRun, PhaseOk, ValidExec;
    AgentRuns.RunInv(run);
    AgentRuns.JobOk(Now(run), i);
    PhaseIsValid(Now(run).jobs[i], SentBy(Now(run).history, i));
    var a, t := NextSend(Now(run), i);
    OneMore(run, a, t);
    longer := run + [t];
    if t.crash.None? {
      OneMore(longer, SendNext(i), t.(crash := Some(FromExec(i)))) by {
        FlushPanics(t, i);
      }
      longer := longer + [t.(crash := Some(FromExec(i)))];
    }
  }

  lemma PhaseIsValid(j: Job, sent: seq<Frame>)
    requires PhaseOk(j, sent)
    ensures ValidExec(j.frame)
  {
  }

  lemma FlushPanics(t: State, i: nat)
    requires t.reader.Stopped? && t.crash.None? && i < |t.jobs| && t.jobs[i].phase.Flushing?
             && t.jobs[i].phase.todo != []
    ensures Next(t, SendNext(i)) == Some(t.(crash := Some(FromExec(i))))
  {
    hide Proceed;
  }

  /* ---- Main result ---- */

  /** Once the reader has returned, an exec's goroutine can end the whole agent by a panic exactly
      when it still had a frame to send at that moment: its process not yet started, running,
      or its output not all sent. And then nothing else can become of it: it never returns. */
  lemma PanicsIff(run: seq<State>, i: nat)
    requires IsRun(run) && Now(run).reader.Stopped? && Now(run).crash.None? && i < |Now(run).jobs|
    ensures Pending(Now(run).jobs[i].phase)
            <==> exists longer :: IsRun(longer) && run <= longer && Now(longer).crash == Some(FromExec(i))
    ensures forall longer :: IsRun(longer) && run <= longer ==>
              && i < |Now(longer).jobs|
              && Pending(Now(longer).jobs[i].phase) == Pending(Now(run).jobs[i].phase)
  {
    hide IsRun, Pending;
    forall longer | IsRun(longer) && run <= longer
      ensures i < |Now(longer).jobs| && Pending(Now(longer).jobs[i].phase) == Pending(Now(run).jobs[i].phase)
      ensures Now(longer).crash == Some(FromExec(i)) ==> Pending(Now(run).jobs[i].phase)
    {
      Settled(run, longer, i);
    }
    if Pending(Now(run).jobs[i].phase) {
      var longer := CanPanic(run, i);
    }
  }
}
