/** How execs end early on one agent connection: no context outlives its handling, and a cancel
    received after the exec's own frame has cancelled it. */
module AgentStops {
  import opened Prelude
  import opened CapBuffers
  import opened Exec
  import opened AgentLoop
  import AgentRuns

  /** x comes before y. */
  predicate Before(fs: seq<Frame>, x: Frame, y: Frame) {
    exists p, q :: 0 <= p < q < |fs| && fs[p] == x && fs[q] == y
  }

  lemma BeforeSnoc(fs: seq<Frame>, z: Frame, x: Frame, y: Frame)
    ensures Before(fs + [z], x, y) <==> Before(fs, x, y) || (y == z && x in fs)
  {
    var gs := fs + [z];
    if Before(fs, x, y) {
      var p, q :| 0 <= p < q < |fs| && fs[p] == x && fs[q] == y;
      assert gs[p] == x && gs[q] == y;
    }
    if y == z && x in fs {
      var p :| 0 <= p < |fs| && fs[p] == x;
      assert gs[p] == x && gs[|fs|] == y;
    }
    if Before(gs, x, y) {
      var p, q :| 0 <= p < q < |gs| && gs[p] == x && gs[q] == y;
      assert fs[p] == x;
      assert q < |fs| ==> fs[q] == y;
    }
  }

  /** The exec's context has been cancelled by the time its slot is given back, and that of a
      refused exec by the time the reader goes on. */
  predicate ContextDone(j: Job, i: nat, r: ReaderPc) {
    && (j.phase.CancelDone? || j.phase.Released? || j.phase.Finished? ==> j.cancelled)
    && (j.phase.Refused? ==> j.cancelled || r == CancellingBusy(i))
  }

  ghost predicate ContextsOk(s: State) {
    forall i :: 0 <= i < |s.jobs| ==> ContextDone(s.jobs[i], i, s.reader)
  }

  /** Every well-formed exec frame received has a job. */
  ghost predicate ReceivedOk(s: State) {
    forall p :: 0 <= p < |s.received| && ValidExec(s.received[p]) ==> HasJob(s.jobs, s.received[p])
  }

  predicate HasJob(jobs: seq<Job>, f: Frame) {
    exists i :: 0 <= i < |jobs| && jobs[i].frame == f
  }

  predicate Cancels(g: Frame, j: Job) { g.kind.Cancel? && g.eid == j.frame.eid }

  /** With distinct ids, an exec whose id was named by a cancel received after it is cancelled. */
  ghost predicate StoppedOk(s: State) {
    DistinctIds(s.jobs) ==>
      forall i, g :: 0 <= i < |s.jobs| && Cancels(g, s.jobs[i]) && Before(s.received, s.jobs[i].frame, g) ==>
        s.jobs[i].cancelled
  }

  ghost predicate Inv(s: State) { ContextsOk(s) && ReceivedOk(s) && StoppedOk(s) }

  /* ---- The steps ---- */

  predicate Readers(a: Action) {
    a.Receive? || a.TrySemaphore? || a.ReaderSend? || a.CancelBusy? || a.PtyEmit? || a.Drain? || a.HangUp?
  }

  lemma ReaderContexts(s: State, a: Action, t: State)
    requires ContextsOk(s) && ReaderOk(s) && Proceed(s, a) == Some(t) && Readers(a)
    ensures ContextsOk(t)
  {
    hide JobStep, ValidExec, FailFrame;
    forall i | 0 <= i < |t.jobs|
      ensures ContextDone(t.jobs[i], i, t.reader)
    {
      assert i < |s.jobs| ==> ContextDone(s.jobs[i], i, s.reader);
    }
  }

  lemma GoroutineContexts(s: State, a: Action, t: State)
    requires ContextsOk(s) && JobStep(s, a) == Some(t)
    ensures ContextsOk(t)
  {
    hide ExecFrames, Tail, Write, Possible, CapOf, AckFrame;
    forall i | 0 <= i < |t.jobs|
      ensures ContextDone(t.jobs[i], i, t.reader)
    {
      assert ContextDone(s.jobs[i], i, s.reader);
    }
  }

  lemma OwnStep(s: State, a: Action)
    requires !Readers(a)
    ensures Proceed(s, a) == JobStep(s, a)
  {
    hide JobStep;
  }

  lemma ContextStep(s: State, a: Action, t: State)
    requires AgentLoop.Inv(s) && ContextsOk(s) && Proceed(s, a) == Some(t)
    ensures ContextsOk(t)
  {
    hide Proceed, JobStep, JobsOk, TagsOk, CancelsOk, SemOk, ContextsOk;
    if Readers(a) {
      ReaderContexts(s, a, t);
    } else {
      OwnStep(s, a);
      GoroutineContexts(s, a, t);
    }
  }

  /** Between two frames received, jobs keep their frames and stay cancelled. */
  ghost predicate Carries(s: State, t: State) {
    && t.received == s.received && |t.jobs| == |s.jobs|
    && forall i :: 0 <= i < |s.jobs| ==>
         t.jobs[i].frame == s.jobs[i].frame && (s.jobs[i].cancelled ==> t.jobs[i].cancelled)
  }

  lemma StepCarries(s: State, a: Action, t: State)
    requires JobsOk(s) && ReaderOk(s) && Proceed(s, a) == Some(t) && !a.Receive?
    ensures Carries(s, t)
  {
    hide JobsOk, ValidExec, FailFrame, JobStep;
    if !Readers(a) {
      OwnStep(s, a);
      GoroutineCarries(s, a, t);
    }
  }

  lemma GoroutineCarries(s: State, a: Action, t: State)
    requires JobStep(s, a) == Some(t)
    ensures Carries(s, t)
  {
    hide ExecFrames, Tail, Write, Possible, CapOf, AckFrame;
  }

  lemma CarriesKeeps(s: State, t: State)
    requires ReceivedOk(s) && StoppedOk(s) && Carries(s, t)
    ensures ReceivedOk(t) && StoppedOk(t)
  {
    hide Before, ValidExec;
    forall f | HasJob(s.jobs, f)
      ensures HasJob(t.jobs, f)
    {
      var i :| 0 <= i < |s.jobs| && s.jobs[i].frame == f;
      assert t.jobs[i].frame == f;
    }
    if DistinctIds(t.jobs) {
      AgentRuns.SameIds(s.jobs, t.jobs);
      assert forall g, i :: 0 <= i < |s.jobs| ==> Cancels(g, t.jobs[i]) == Cancels(g, s.jobs[i]);
    }
  }

  /** The reader admits an exec. */
  lemma AdmitKeeps(s: State, f: Frame, t: State)
    requires ReceivedOk(s) && StoppedOk(s) && ValidExec(f)
    requires t.received == s.received + [f] && t.jobs == s.jobs + [AgentRuns.NewJob(f)]
    ensures ReceivedOk(t) && StoppedOk(t)
  {
    hide Before, ValidExec;
    var n := |s.jobs|;
    forall g | HasJob(s.jobs, g) || g == f
      ensures HasJob(t.jobs, g)
    {
      if g == f {
        assert t.jobs[n].frame == f;
      } else {
        var i :| 0 <= i < n && s.jobs[i].frame == g;
        assert t.jobs[i].frame == g;
      }
    }
    AgentRuns.ExecOnly(f);
    if DistinctIds(t.jobs) {
      assert forall k :: 0 <= k < n ==> t.jobs[k] == s.jobs[k];
      AgentRuns.SameIds(s.jobs, t.jobs);
      forall i, g | 0 <= i < |t.jobs| && Cancels(g, t.jobs[i]) && Before(t.received, t.jobs[i].frame, g)
        ensures t.jobs[i].cancelled
      {
        BeforeSnoc(s.received, f, t.jobs[i].frame, g);
        if i < n {
          assert Cancels(g, s.jobs[i]);
        } else {
          NewIsNotBefore(s, f, g);
        }
      }
    }
  }

  /** A frame seen before has a job already, whose id the new one would share. */
  lemma NewIsNotBefore(s: State, f: Frame, g: Frame)
    requires ReceivedOk(s) && ValidExec(f) && DistinctIds(s.jobs + [AgentRuns.NewJob(f)])
    ensures !Before(s.received, f, g)
  {
    hide ValidExec;
    if Before(s.received, f, g) {
      var p, q :| 0 <= p < q < |s.received| && s.received[p] == f && s.received[q] == g;
      assert HasJob(s.jobs, f);
      var i :| 0 <= i < |s.jobs| && s.jobs[i].frame == f;
      SharedId(s.jobs, f, i);
    }
  }

  lemma SharedId(jobs: seq<Job>, f: Frame, i: nat)
    requires i < |jobs| && jobs[i].frame == f
    ensures !DistinctIds(jobs + [AgentRuns.NewJob(f)])
  {
    var all := jobs + [AgentRuns.NewJob(f)];
    assert all[i].frame.eid == all[|jobs|].frame.eid;
  }

  /** Any other frame the reader takes: a cancel may mark one job, nothing else changes. */
  lemma OtherKeeps(s: State, f: Frame, ptyFails: bool)
    requires AgentLoop.Inv(s) && Inv(s) && s.reader.Idle? && !ValidExec(f)
    ensures ReceivedOk(OnFrame(s, f, ptyFails)) && StoppedOk(OnFrame(s, f, ptyFails))
  {
    hide Before, ValidExec, JobsOk, TagsOk, SemOk, AgentRuns.NewJob;
    var t := OnFrame(s, f, ptyFails);
    OtherJobs(s, f, ptyFails);
    forall g | HasJob(s.jobs, g)
      ensures HasJob(t.jobs, g)
    {
      var i :| 0 <= i < |s.jobs| && s.jobs[i].frame == g;
      assert t.jobs[i].frame == g;
    }
    if DistinctIds(t.jobs) {
      AgentRuns.SameIds(s.jobs, t.jobs);
      forall i, g | 0 <= i < |t.jobs| && Cancels(g, t.jobs[i]) && Before(t.received, t.jobs[i].frame, g)
        ensures t.jobs[i].cancelled
      {
        BeforeSnoc(s.received, f, t.jobs[i].frame, g);
        assert Cancels(g, s.jobs[i]);
        if !Before(s.received, t.jobs[i].frame, g) {
          CancelMarks(s, f, ptyFails, i);
        }
      }
    }
  }

  lemma OtherJobs(s: State, f: Frame, ptyFails: bool)
    requires !ValidExec(f)
    ensures var t := OnFrame(s, f, ptyFails);
            && t.received == s.received + [f] && |t.jobs| == |s.jobs|
            && forall i :: 0 <= i < |s.jobs| ==>
                 t.jobs[i].frame == s.jobs[i].frame && (s.jobs[i].cancelled ==> t.jobs[i].cancelled)
  {
    hide ValidExec;
  }

  /** A cancel for a job's id finds it in the map, or finds it finished and so cancelled. */
  lemma CancelMarks(s: State, f: Frame, ptyFails: bool, i: nat)
    requires AgentLoop.Inv(s) && ContextsOk(s) && DistinctIds(s.jobs) && i < |s.jobs| && Cancels(f, s.jobs[i])
    ensures var jobs := OnFrame(s, f, ptyFails).jobs; i < |jobs| && jobs[i].cancelled
  {
    hide JobsOk, TagsOk, SemOk, ReaderOk;
    assert ContextDone(s.jobs[i], i, s.reader);
    assert InMap(s, i) == !s.jobs[i].phase.Finished?;
    JobHasId(s, i);
  }

  lemma JobHasId(s: State, i: nat)
    requires JobsOk(s) && i < |s.jobs|
    ensures s.jobs[i].frame.eid != ""
  {
    AgentRuns.JobOk(s, i);
  }

  lemma InvStep(s: State, a: Action, t: State)
    requires AgentLoop.Inv(s) && Inv(s) && Next(s, a) == Some(t)
    ensures Inv(t)
  {
    hide Proceed, Sender, Before, ValidExec;
    if t != s.(crash := t.crash) {
      ProceedKeeps(s, a, t);
    }
  }

  lemma ProceedKeeps(s: State, a: Action, t: State)
    requires AgentLoop.Inv(s) && Inv(s) && Proceed(s, a) == Some(t)
    ensures Inv(t)
  {
    hide ContextsOk, ReceivedOk, StoppedOk, JobsOk, TagsOk, CancelsOk, SemOk, JobStep, ValidExec, OnFrame;
    ContextStep(s, a, t);
    if !a.Receive? {
      StepCarries(s, a, t);
      CarriesKeeps(s, t);
    } else if ValidExec(a.f) {
      AdmitShape(s, a.f, a.ptyFails);
      AdmitKeeps(s, a.f, t);
    } else {
      OtherKeeps(s, a.f, a.ptyFails);
    }
  }

  lemma AdmitShape(s: State, f: Frame, ptyFails: bool)
    requires ValidExec(f)
    ensures var t := OnFrame(s, f, ptyFails); t.received == s.received + [f] && t.jobs == s.jobs + [AgentRuns.NewJob(f)]
  {
  }

  lemma InitInv()
    ensures Inv(INIT)
  {
  }

  lemma {:induction false} RunInv(run: seq<State>)
    requires IsRun(run)
    ensures AgentLoop.Inv(Now(run)) && Inv(Now(run))
    decreases |run|
  {
    hide Next, AgentLoop.Inv, Inv;
    AgentRuns.RunInv(run);
    if |run| == 1 {
      InitInv();
    } else {
      var a := Shorter(run);
      RunInv(run[..|run| - 1]);
      InvStep(Now(run[..|run| - 1]), a, Now(run));
    }
  }

  /* ---- In every run ---- */

  /** No exec's context outlives its handling. */
  lemma NoContextLeak(run: seq<State>)
    requires IsRun(run)
    ensures ContextsOk(Now(run))
  {
    hide Next, AgentLoop.Inv;
    RunInv(run);
  }

  /** With distinct ids, an exec is cancelled once a cancel for its id has come after it,
      whatever its goroutine was doing. */
  lemma CancelledAfterCancel(run: seq<State>, i: nat, g: Frame)
    requires IsRun(run) && DistinctIds(Now(run).jobs) && i < |Now(run).jobs|
    requires Cancels(g, Now(run).jobs[i]) && Before(Now(run).received, Now(run).jobs[i].frame, g)
    ensures Now(run).jobs[i].cancelled
  {
    hide Next, AgentLoop.Inv, Before;
    RunInv(run);
  }
}
