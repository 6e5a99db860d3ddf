/** Every run of the agent's connection loop keeps the invariants of module AgentLoop. */
module AgentRuns {
  import opened Prelude
  import opened CapBuffers
  import opened Exec
  import opened AgentLoop
  import Base64
  import RedactChain

  /** The exec whose goroutine takes the step. */
  function Actor(a: Action): nat {
    match a
    case Start(i, _) => i
    case SendAck(i) => i
    case WriteOut(i, _) => i
    case WriteErr(i, _) => i
    case End(i, _) => i
    case SendNext(i) => i
    case Return(i) => i
    case CancelSelf(i) => i
    case Release(i) => i
    case Forget(i) => i
    case _ => 0
  }

  /** The frame the step sends for that exec. */
  function Sends(s: State, a: Action): Option<Frame> {
    match a
    case SendAck(i) => if i < |s.jobs| then Some(AckFrame(s.jobs[i].frame)) else None
    case SendNext(i) =>
      if i < |s.jobs| && s.jobs[i].phase.Flushing? && s.jobs[i].phase.todo != []
      then Some(s.jobs[i].phase.todo[0]) else None
    case _ => None
  }

  /** A goroutine's step changes its own job only, sends at most one frame of it, and leaves
      the reader alone. */
  lemma JobStepShape(s: State, a: Action, t: State)
    requires JobsOk(s) && JobStep(s, a) == Some(t)
    ensures var i := Actor(a);
            && i < |s.jobs| && Touches(s, t, i, t.jobs[i], Sends(s, a))
            && t.reader == s.reader && t.received == s.received && t.crash == s.crash
            && !(s.jobs[i].phase.Registered? || s.jobs[i].phase.Refusing? || s.jobs[i].phase.Refused?)
  {
    hide Write, Tail, ExecFrames, Possible, PhaseOk, JobsOk, SentBy;
    var i := Actor(a);
    JobOk(s, i);
    if a.SendNext? {
      TodoIds(s.jobs[i], SentBy(s.history, i));
    }
  }

  /** The frames still to be sent carry the ids of the request. */
  lemma TodoIds(j: Job, sent: seq<Frame>)
    requires PhaseOk(j, sent) && j.phase.Flushing?
    ensures forall k :: 0 <= k < |j.phase.todo| ==>
              j.phase.todo[k].sid == j.frame.sid && j.phase.todo[k].eid == j.frame.eid
  {
    hide WriteAll, ExecFrames;
    var all := ExecFrames(j.frame, j.phase.oc);
    ExecFramesGrammar(j.frame, j.phase.oc);
    assert forall k :: 0 <= k < |j.phase.todo| ==> j.phase.todo[k] == all[|sent| + k];
  }

  lemma JobOk(s: State, i: nat)
    requires JobsOk(s) && i < |s.jobs|
    ensures PhaseOk(s.jobs[i], SentBy(s.history, i))
  {
  }

  lemma JobStepPhase(s: State, a: Action, t: State)
    requires JobsOk(s) && JobStep(s, a) == Some(t) && Actor(a) < |s.jobs| == |t.jobs|
    ensures var i := Actor(a);
            PhaseOk(t.jobs[i], SentBy(s.history, i) + (if Sends(s, a).Some? then [Sends(s, a).value] else []))
  {
    hide PhaseOk, JobsOk, SentBy, JobStep, Sends;
    JobOk(s, Actor(a));
    if a.WriteOut? || a.WriteErr? {
      WritePhase(s, a, t, SentBy(s.history, Actor(a)));
    } else if a.Start? || a.End? {
      RunPhase(s, a, t, SentBy(s.history, Actor(a)));
    } else {
      SendPhase(s, a, t, SentBy(s.history, Actor(a)));
    }
  }

  lemma WritePhase(s: State, a: Action, t: State, sent: seq<Frame>)
    requires JobStep(s, a) == Some(t) && (a.WriteOut? || a.WriteErr?) && Actor(a) < |s.jobs| == |t.jobs|
    requires PhaseOk(s.jobs[Actor(a)], sent)
    ensures Sends(s, a).None? && PhaseOk(t.jobs[Actor(a)], sent + [])
  {
    hide WriteAll, Write, Possible, ValidExec, ExecFrames, CapOf;
    var j := s.jobs[Actor(a)];
    assert sent + [] == sent;
    match a
    case WriteOut(_, p) => WriteAllSnoc(CapOf(j.frame), j.outW, p);
    case WriteErr(_, p) => WriteAllSnoc(CapOf(j.frame), j.errW, p);
  }

  lemma RunPhase(s: State, a: Action, t: State, sent: seq<Frame>)
    requires JobStep(s, a) == Some(t) && (a.Start? || a.End?) && Actor(a) < |s.jobs| == |t.jobs|
    requires PhaseOk(s.jobs[Actor(a)], sent)
    ensures Sends(s, a).None? && PhaseOk(t.jobs[Actor(a)], sent + [])
  {
    hide WriteAll, Tail, Possible, ValidExec, ExecFrames, CapOf;
    assert sent + [] == sent;
    if a.End? {
      EndPhase(s.jobs[a.i], sent, a.code);
    }
  }

  lemma SendPhase(s: State, a: Action, t: State, sent: seq<Frame>)
    requires JobStep(s, a) == Some(t) && Actor(a) < |s.jobs| == |t.jobs|
    requires !a.WriteOut? && !a.WriteErr? && !a.Start? && !a.End?
    requires PhaseOk(s.jobs[Actor(a)], sent)
    ensures PhaseOk(t.jobs[Actor(a)], sent + (if Sends(s, a).Some? then [Sends(s, a).value] else []))
  {
    hide WriteAll, Possible, ValidExec, ExecFrames, CapOf, AckFrame;
    assert sent + [] == sent;
    if a.SendNext? {
      var j := s.jobs[a.i];
      assert j.phase.todo == [j.phase.todo[0]] + j.phase.todo[1..];
    }
  }

  lemma EndPhase(j: Job, sent: seq<Frame>, code: int)
    requires PhaseOk(j, sent) && j.phase == Live(true)
    ensures PhaseOk(j.(phase := Flushing(Tail(j.frame, j.out, j.err, code), Ran(j.outW, j.errW, code))), sent)
  {
    hide RedactChain.Redact, Base64.Encode, WriteAll, Write, Tail;
  }

  lemma JobStepKeepsFrames(s: State, a: Action, t: State)
    requires JobsOk(s) && TagsOk(s) && ReaderOk(s) && JobStep(s, a) == Some(t)
    ensures JobsOk(t) && TagsOk(t) && ReaderOk(t)
  {
    hide PhaseOk, SentBy, JobStep, JobsOk, TagsOk;
    JobStepShape(s, a, t);
    JobStepPhase(s, a, t);
    TouchKeeps(s, t, Actor(a), t.jobs[Actor(a)], Sends(s, a));
  }

  lemma JobStepKeepsSem(s: State, a: Action, t: State)
    requires SemOk(s) && JobStep(s, a) == Some(t)
    ensures SemOk(t)
  {
    hide SentBy, ExecFrames, Tail, Write, WriteAll, Possible, AckFrame, Holding, Room;
    var i := Actor(a);
    HoldingUpdate(s.jobs, i, t.jobs[i]);
  }

  lemma JobStepKeepsCancels(s: State, a: Action, t: State)
    requires CancelsOk(s) && JobStep(s, a) == Some(t)
    ensures CancelsOk(t)
  {
    hide SentBy, ExecFrames, Tail, Write, WriteAll, Possible, AckFrame, CancelsOk;
    var i := Actor(a);
    if a.Forget? {
      ForgetKeepsCancels(s, i, t);
    } else {
      TouchKeepsCancels(s, t, i, t.jobs[i]);
    }
  }

  lemma TouchKeepsCancels(s: State, t: State, i: nat, j: Job)
    requires CancelsOk(s) && i < |s.jobs| && t.jobs == s.jobs[i := j] && t.cancels == s.cancels
    requires j.frame == s.jobs[i].frame && j.phase.Finished? == s.jobs[i].phase.Finished?
    ensures CancelsOk(t)
  {
    assert forall k :: 0 <= k < |s.jobs| ==> t.jobs[k].frame == s.jobs[k].frame;
    if DistinctIds(t.jobs) {
      SameIds(s.jobs, t.jobs);
      forall k | 0 <= k < |t.jobs|
        ensures InMap(t, k) == !t.jobs[k].phase.Finished?
      {
        assert InMap(s, k) == !s.jobs[k].phase.Finished?;
      }
    }
  }

  lemma SameIds(a: seq<Job>, b: seq<Job>)
    requires |a| <= |b| && DistinctIds(b) && forall k :: 0 <= k < |a| ==> b[k].frame == a[k].frame
    ensures DistinctIds(a)
  {
  }

  lemma ForgetKeepsCancels(s: State, i: nat, t: State)
    requires CancelsOk(s) && JobStep(s, Forget(i)) == Some(t)
    ensures CancelsOk(t)
  {
    assert forall k :: 0 <= k < |s.jobs| ==> t.jobs[k].frame == s.jobs[k].frame;
    if DistinctIds(t.jobs) {
      SameIds(s.jobs, t.jobs);
      forall k | 0 <= k < |t.jobs|
        ensures InMap(t, k) == !t.jobs[k].phase.Finished?
      {
        assert InMap(s, k) == !s.jobs[k].phase.Finished?;
        assert k != i ==> t.jobs[k].frame.eid != t.jobs[i].frame.eid;
      }
    }
  }

  /** The reader's steps on a job it has dispatched. */
  lemma ReaderJobStep(s: State, a: Action, t: State)
    requires Inv(s) && Proceed(s, a) == Some(t)
    requires a.TrySemaphore? || a.CancelBusy? || (a.ReaderSend? && !s.reader.Sending?)
    ensures Inv(t)
  {
    hide SentBy, Holding, FailFrame, PhaseOk, JobsOk, TagsOk, CancelsOk, JobStep;
    var i := s.reader.i;
    var f := if a.ReaderSend? then Some(FailFrame(s.jobs[i].frame, "busy")) else None;
    FailIds(s.jobs[i].frame, "busy");
    ReaderJobPhase(s, a, t, i);
    TouchKeeps(s, t, i, t.jobs[i], f);
    HoldingUpdate(s.jobs, i, t.jobs[i]);
    TouchKeepsCancels(s, t, i, t.jobs[i]);
  }

  lemma ReaderJobPhase(s: State, a: Action, t: State, i: nat)
    requires JobsOk(s) && ReaderOk(s) && Proceed(s, a) == Some(t)
    requires a.TrySemaphore? || a.CancelBusy? || (a.ReaderSend? && !s.reader.Sending?)
    requires i == s.reader.i && |t.jobs| == |s.jobs|
    ensures PhaseOk(t.jobs[i],
                    SentBy(s.history, i) + (if a.ReaderSend? then [FailFrame(s.jobs[i].frame, "busy")] else []))
  {
    hide SentBy, Holding, FailFrame, JobsOk, ValidExec, WriteAll, ExecFrames, Possible, JobStep;
    JobOk(s, i);
    assert SentBy(s.history, i) + [] == SentBy(s.history, i);
  }

  lemma FailIds(f: Frame, code: string)
    ensures FailFrame(f, code).sid == f.sid && FailFrame(f, code).eid == f.eid
  {
  }

  /** A frame number beyond the last job tags nothing. */
  lemma {:induction false} SentByNobody(history: seq<Tagged>, i: nat)
    requires forall k :: 0 <= k < |history| ==> history[k].origin != FromExec(i)
    ensures SentBy(history, i) == []
  {
    if history != [] {
      SentByNobody(history[..|history| - 1], i);
    }
  }

  /** The reader admits an exec frame. */
  lemma DispatchStep(s: State, f: Frame, ptyFails: bool)
    requires Inv(s) && s.reader.Idle? && ValidExec(f)
    ensures Inv(OnFrame(s, f, ptyFails))
  {
    hide SentBy, ExecFrames, Possible, PhaseOk, JobsOk, TagsOk, CancelsOk, ValidExec;
    var t := OnFrame(s, f, ptyFails);
    assert f.kind.ExecStart? by { ExecOnly(f); }
    assert t.jobs[..|s.jobs|] == s.jobs;
    DispatchJobs(s, f, t);
    DispatchCancels(s, f, t);
  }

  lemma ExecOnly(f: Frame)
    requires ValidExec(f)
    ensures f.kind.ExecStart?
  {
  }

  /** What the reader registers for an admitted exec. */
  function NewJob(f: Frame): Job { Job(f, Registered, EMPTY, EMPTY, [], [], false) }

  lemma DispatchJobs(s: State, f: Frame, t: State)
    requires JobsOk(s) && TagsOk(s) && ValidExec(f)
    requires t.jobs == s.jobs + [NewJob(f)] && t.history == s.history && t.ptys == s.ptys && !t.reader.Sending?
    ensures JobsOk(t) && TagsOk(t)
  {
    hide SentBy, PhaseOk, ValidExec;
    var n := |s.jobs|;
    assert forall k :: 0 <= k < |s.history| ==> TagOk(s, s.history[k]) && TagOk(t, s.history[k]);
    SentByNobody(s.history, n);
    NewJobPhase(f);
    forall k | 0 <= k < |t.jobs|
      ensures PhaseOk(t.jobs[k], SentBy(t.history, k))
    {
      assert k < n ==> t.jobs[k] == s.jobs[k];
    }
  }

  lemma NewJobPhase(f: Frame)
    requires ValidExec(f)
    ensures PhaseOk(NewJob(f), [])
  {
  }

  lemma DispatchCancels(s: State, f: Frame, t: State)
    requires CancelsOk(s) && t.jobs == s.jobs + [NewJob(f)] && t.cancels == s.cancels[f.eid := |s.jobs|]
    ensures CancelsOk(t)
  {
    var n := |s.jobs|;
    assert forall k :: 0 <= k < n ==> t.jobs[k] == s.jobs[k];
    if DistinctIds(t.jobs) {
      SameIds(s.jobs, t.jobs);
      forall i | 0 <= i < |t.jobs|
        ensures InMap(t, i) == !t.jobs[i].phase.Finished?
      {
        if i < n {
          assert t.jobs[i].frame.eid != t.jobs[n].frame.eid;
          assert InMap(s, i) == !s.jobs[i].phase.Finished?;
        }
      }
    }
  }

  /** Any other frame the reader takes. */
  lemma OtherFrameStep(s: State, f: Frame, ptyFails: bool)
    requires Inv(s) && s.reader.Idle? && !ValidExec(f)
    ensures Inv(OnFrame(s, f, ptyFails))
  {
    hide SentBy, ValidExec, Holding, PhaseOk, CancelsOk, JobsOk, TagsOk;
    var t := OnFrame(s, f, ptyFails);
    assert s.history + [] == s.history;
    if f.kind.Cancel? && t.jobs != s.jobs {
      CancelStep(s, f, t);
    } else {
      QuietKeeps(s, t, []);
      SameCancels(s, t);
    }
  }

  lemma SameCancels(s: State, t: State)
    requires CancelsOk(s) && t.jobs == s.jobs && t.cancels == s.cancels
    ensures CancelsOk(t)
  {
    assert forall i :: 0 <= i < |s.jobs| ==> InMap(s, i) == InMap(t, i);
  }

  lemma CancelStep(s: State, f: Frame, t: State)
    requires Inv(s) && s.reader.Idle? && f.eid in s.cancels && s.cancels[f.eid] < |s.jobs|
    requires t == Cancelled(s, s.cancels[f.eid]).(received := s.received + [f])
    ensures Inv(t)
  {
    hide SentBy, Holding, PhaseOk, CancelsOk, JobsOk, TagsOk;
    var i := s.cancels[f.eid];
    JobOk(s, i);
    assert s.history + [] == s.history;
    assert SentBy(s.history, i) + [] == SentBy(s.history, i);
    CancelledPhase(s.jobs[i], SentBy(s.history, i));
    TouchKeeps(s, t, i, t.jobs[i], None);
    HoldingUpdate(s.jobs, i, t.jobs[i]);
    TouchKeepsCancels(s, t, i, t.jobs[i]);
  }

  lemma CancelledPhase(j: Job, sent: seq<Frame>)
    requires PhaseOk(j, sent)
    ensures PhaseOk(j.(cancelled := true), sent)
  {
    hide WriteAll, ExecFrames, Possible, ValidExec;
  }

  lemma QuietStep(s: State, a: Action, t: State)
    requires Inv(s) && Proceed(s, a) == Some(t)
    requires a.PtyEmit? || a.Drain? || a.HangUp? || (a.ReaderSend? && s.reader.Sending?)
    ensures Inv(t)
  {
    hide SentBy, Holding, CancelsOk, JobsOk, JobStep;
    assert s.history + [] == s.history;
    SameCancels(s, t);
    QuietKeeps(s, t, t.history[|s.history|..]);
  }

  lemma InvStep(s: State, a: Action, t: State)
    requires Inv(s) && Next(s, a) == Some(t)
    ensures Inv(t)
  {
    hide Proceed, Inv, Sender;
    if t == s.(crash := t.crash) && s.reader.Stopped? {
      PanicKeeps(s, t);
    } else {
      ProceedKeeps(s, a, t);
    }
  }

  /** A panic changes nothing but that the agent has ended. */
  lemma PanicKeeps(s: State, t: State)
    requires Inv(s) && s.reader.Stopped? && t == s.(crash := t.crash)
    ensures Inv(t)
  {
    hide PhaseOk, SentBy, Holding;
    SameCancels(s, t);
    assert forall k :: 0 <= k < |s.history| ==> TagOk(s, s.history[k]) && TagOk(t, s.history[k]);
  }

  lemma ProceedKeeps(s: State, a: Action, t: State)
    requires Inv(s) && Proceed(s, a) == Some(t)
    ensures Inv(t)
  {
    hide JobsOk, TagsOk, ReaderOk, SemOk, CancelsOk, OnFrame, ValidExec;
    match a
    case Receive(f, ptyFails) =>
      if ValidExec(f) {
        DispatchStep(s, f, ptyFails);
      } else {
        OtherFrameStep(s, f, ptyFails);
      }
    case TrySemaphore => ReaderJobStep(s, a, t);
    case CancelBusy => ReaderJobStep(s, a, t);
    case ReaderSend =>
      if s.reader.Sending? {
        QuietStep(s, a, t);
      } else {
        ReaderJobStep(s, a, t);
      }
    case PtyEmit(_, _) => QuietStep(s, a, t);
    case Drain => QuietStep(s, a, t);
    case HangUp => QuietStep(s, a, t);
    case _ =>
      JobStepKeepsFrames(s, a, t);
      JobStepKeepsSem(s, a, t);
      JobStepKeepsCancels(s, a, t);
  }

  lemma {:induction false} RunInv(run: seq<State>)
    requires IsRun(run)
    ensures Inv(Now(run))
    decreases |run|
  {
    hide Next, Inv;
    if |run| == 1 {
      InitInv();
    } else {
      var a := Shorter(run);
      RunInv(run[..|run| - 1]);
      InvStep(Now(run[..|run| - 1]), a, Now(run));
    }
  }

  lemma InitInv()
    ensures Inv(INIT)
  {
  }
}
