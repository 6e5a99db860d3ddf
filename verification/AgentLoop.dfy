/** One agent connection as runOnce of cmd/agent/exec.go drives it: the reader loop, up to
    eight exec goroutines and the shared `out` channel, interleaved step by step. */
module AgentLoop {
  import opened Prelude
  import Runs
  import opened CapBuffers
  import opened Exec

  const MAX_EXECS := 8
  const OUT_CAP := 32

  /** Which goroutine put a frame on `out`. */
  datatype Origin = FromExec(i: nat) | FromPty | Control
  datatype Tagged = Tagged(frame: Frame, origin: Origin)

  /** Where the handling of one exec frame stands. */
  datatype Phase =
    | Registered                                 // cancel function stored; semaphore next
    | Refusing                                   // at capacity; the busy exit comes next
    | Refused
    | Spawned                                    // holds a slot; goroutine not yet started the process
    | Live(acked: bool)                          // process running
    | Flushing(todo: seq<Frame>, oc: Outcome)    // frames still to be sent
    | Returned(oc: Outcome)                      // runExec returned; deferred ecancel next
    | CancelDone(oc: Outcome)                    // slot release next
    | Released(oc: Outcome)                      // removal from the cancel map next
    | Finished(oc: Outcome)

  datatype Job = Job(frame: Frame, phase: Phase, out: Cap, err: Cap,
                     outW: seq<Bytes>, errW: seq<Bytes>, cancelled: bool)

  datatype ReaderPc =
    | Idle
    | AtSemaphore(i: nat)
    | SendingBusy(i: nat)
    | CancellingBusy(i: nat)
    | Sending(t: Tagged)
    | Stopped                                    // returned; `out` is closed

  /** `crash` names the goroutine whose send on the closed channel ended the agent. */
  datatype State = State(jobs: seq<Job>, cancels: map<string, nat>, sem: nat, out: seq<Tagged>, reader: ReaderPc,
                         ptys: set<string>, received: seq<Frame>, history: seq<Tagged>, crash: Option<Origin>)

  const INIT := State([], map[], 0, [], Idle, {}, [], [], None)

  datatype Action =
    | Receive(f: Frame, ptyFails: bool)
    | TrySemaphore
    | ReaderSend
    | CancelBusy
    | Start(i: nat, failure: Option<Outcome>)
    | SendAck(i: nat)
    | WriteOut(i: nat, p: Bytes)
    | WriteErr(i: nat, p: Bytes)
    | End(i: nat, code: int)
    | SendNext(i: nat)
    | Return(i: nat)
    | CancelSelf(i: nat)
    | Release(i: nat)
    | Forget(i: nat)
    | PtyEmit(sid: string, exit: bool)
    | Drain
    | HangUp                                     // the reader returns; its defers close `out`

  predicate ValidExec(f: Frame) {
    && f.kind.ExecStart? && f.exec.Some? && f.sid != "" && f.eid != ""
    && (f.exec.value.argv != [] || f.exec.value.script.Some?)
  }

  function SetJob(s: State, i: nat, j: Job): State
    requires i < |s.jobs|
  {
    s.(jobs := s.jobs[i := j])
  }

  function SetPhase(s: State, i: nat, p: Phase): State
    requires i < |s.jobs|
  {
    SetJob(s, i, s.jobs[i].(phase := p))
  }

  function Cancelled(s: State, i: nat): State
    requires i < |s.jobs|
  {
    SetJob(s, i, s.jobs[i].(cancelled := true))
  }

  function Put(s: State, t: Tagged): State { s.(out := s.out + [t], history := s.history + [t]) }

  predicate Room(s: State) { |s.out| < OUT_CAP }

  /** The reader loop's reaction to one frame. */
  function OnFrame(s: State, f: Frame, ptyFails: bool): State {
    var r := s.(received := s.received + [f]);
    match f.kind
    case Ping => r.(reader := Sending(Tagged(Bare(Pong, "", ""), Control)))
    case ExecStart =>
      if !ValidExec(f) then r
      else r.(jobs := r.jobs + [Job(f, Registered, EMPTY, EMPTY, [], [], false)],
              cancels := r.cancels[f.eid := |r.jobs|], reader := AtSemaphore(|r.jobs|))
    case Cancel =>
      if f.eid != "" && f.eid in r.cancels && r.cancels[f.eid] < |r.jobs| then Cancelled(r, r.cancels[f.eid]) else r
    case PtyStart =>
      if f.sid == "" || !f.hasPty then r
      else
        var p := r.(ptys := r.ptys + {f.sid});
        var failed := Bare(Error, f.sid, "").(error := Some("pty_start_failed"));
        if ptyFails then p.(reader := Sending(Tagged(failed, FromPty)))
        else p
    case _ => r
  }

  function Tagging(s: State, i: nat, f: Frame): Tagged { Tagged(f, FromExec(i)) }

  /** The goroutine, other than the reader, that sends on `out` in this action. */
  function Sender(s: State, a: Action): Option<Origin> {
    match a
    case SendAck(i) => if i < |s.jobs| && s.jobs[i].phase == Live(false) then Some(FromExec(i)) else None
    case SendNext(i) =>
      if i < |s.jobs| && s.jobs[i].phase.Flushing? && s.jobs[i].phase.todo != [] then Some(FromExec(i)) else None
    case PtyEmit(sid, _) => if sid in s.ptys then Some(FromPty) else None
    case _ => None
  }

  /** One step; None when it is not enabled. Once `out` is closed a send on it panics, whether
      or not there is room, and that is the end of the agent. */
  function Next(s: State, a: Action): Option<State> {
    if s.crash.Some? then None
    else if s.reader.Stopped? && Sender(s, a).Some? then Some(s.(crash := Sender(s, a)))
    else Proceed(s, a)
  }

  function Proceed(s: State, a: Action): Option<State> {
    match a
    case Receive(f, ptyFails) => if s.reader.Idle? then Some(OnFrame(s, f, ptyFails)) else None
    case TrySemaphore =>
      if !(s.reader.AtSemaphore? && s.reader.i < |s.jobs|) then None
      else if s.sem < MAX_EXECS
      then Some(SetPhase(s, s.reader.i, Spawned).(sem := s.sem + 1, reader := Idle))
      else Some(SetPhase(s, s.reader.i, Refusing).(reader := SendingBusy(s.reader.i)))
    case ReaderSend =>
      if !Room(s) then None
      else if s.reader.Sending? then Some(Put(s, s.reader.t).(reader := Idle))
      else if s.reader.SendingBusy? && s.reader.i < |s.jobs|
      then Some(Put(SetPhase(s, s.reader.i, Refused),
                    Tagging(s, s.reader.i, FailFrame(s.jobs[s.reader.i].frame, "busy")))
                .(reader := CancellingBusy(s.reader.i)))
      else None
    case CancelBusy =>
      if s.reader.CancellingBusy? && s.reader.i < |s.jobs|
      then Some(Cancelled(s, s.reader.i).(reader := Idle)) else None
    case PtyEmit(sid, exit) =>
      if Room(s) && sid in s.ptys
      then Some(Put(s, Tagged(Bare(if exit then PtyExit else PtyData, sid, ""), FromPty))) else None
    case Drain => if s.out != [] then Some(s.(out := s.out[1..])) else None
    case HangUp => if s.reader.Idle? then Some(s.(reader := Stopped)) else None
    case _ => JobStep(s, a)
  }

  /** A step of the goroutine of one exec. */
  function JobStep(s: State, a: Action): Option<State> {
    match a
    case Start(i, failure) =>
      if !(i < |s.jobs| && s.jobs[i].phase.Spawned? && s.jobs[i].frame.exec.Some?) then None
      else
        var j := s.jobs[i];
        (match failure
         case None =>
           if Possible(j.frame.exec.value, Ran([], [], 0)) then Some(SetPhase(s, i, Live(false))) else None
         case Some(oc) =>
           if !oc.Ran? && Possible(j.frame.exec.value, oc)
           then Some(SetPhase(s, i, Flushing(ExecFrames(j.frame, oc), oc))) else None)
    case SendAck(i) =>
      if i < |s.jobs| && s.jobs[i].phase == Live(false) && Room(s)
      then Some(Put(SetPhase(s, i, Live(true)), Tagging(s, i, AckFrame(s.jobs[i].frame)))) else None
    case WriteOut(i, p) =>
      if !(i < |s.jobs| && s.jobs[i].phase.Live? && s.jobs[i].frame.exec.Some?) then None
      else
        var j := s.jobs[i];
        Some(SetJob(s, i, j.(out := Write(CapOf(j.frame), j.out, p), outW := j.outW + [p])))
    case WriteErr(i, p) =>
      if !(i < |s.jobs| && s.jobs[i].phase.Live? && s.jobs[i].frame.exec.Some?) then None
      else
        var j := s.jobs[i];
        Some(SetJob(s, i, j.(err := Write(CapOf(j.frame), j.err, p), errW := j.errW + [p])))
    case End(i, code) =>
      if !(i < |s.jobs| && s.jobs[i].phase == Live(true)) then None
      else
        var j := s.jobs[i];
        Some(SetPhase(s, i, Flushing(Tail(j.frame, j.out, j.err, code), Ran(j.outW, j.errW, code))))
    case SendNext(i) =>
      if !(i < |s.jobs| && s.jobs[i].phase.Flushing? && s.jobs[i].phase.todo != [] && Room(s)) then None
      else
        var p := s.jobs[i].phase;
        Some(Put(SetPhase(s, i, Flushing(p.todo[1..], p.oc)), Tagging(s, i, p.todo[0])))
    case Return(i) =>
      if i < |s.jobs| && s.jobs[i].phase.Flushing? && s.jobs[i].phase.todo == []
      then Some(SetPhase(s, i, Returned(s.jobs[i].phase.oc))) else None
    case CancelSelf(i) =>
      if i < |s.jobs| && s.jobs[i].phase.Returned?
      then Some(SetJob(s, i, s.jobs[i].(phase := CancelDone(s.jobs[i].phase.oc), cancelled := true))) else None
    case Release(i) =>
      if i < |s.jobs| && s.jobs[i].phase.CancelDone? && s.sem > 0
      then Some(SetPhase(s, i, Released(s.jobs[i].phase.oc)).(sem := s.sem - 1)) else None
    case Forget(i) =>
      if i < |s.jobs| && s.jobs[i].phase.Released?
      then Some(SetPhase(s, i, Finished(s.jobs[i].phase.oc)).(cancels := s.cancels - {s.jobs[i].frame.eid})) else None
    case _ => None
  }

  /** A step is any enabled action. */
  ghost predicate Steps(s: State, t: State) { exists a: Action :: Next(s, a) == Some(t) }

  /** A run: the states passed through, from INIT on. */
  ghost predicate IsRun(run: seq<State>) { Runs.IsRun(run, INIT, Steps) }

  /** The state the run has reached. */
  function Now(run: seq<State>): State { Runs.Now(run, INIT) }

  /** A run but for its last step, and that step. */
  lemma Shorter(run: seq<State>) returns (a: Action)
    requires IsRun(run) && |run| > 1
    ensures IsRun(run[..|run| - 1]) && Next(Now(run[..|run| - 1]), a) == Some(Now(run))
  {
    hide Next;
    Runs.Shorter(run, INIT, Steps);
    assert Steps(Now(run[..|run| - 1]), Now(run));
    a :| Next(Now(run[..|run| - 1]), a) == Some(Now(run));
  }

  /* ---- What each exec has sent ---- */

  /** The frames the exec with index i has put on `out`, in order. */
  function SentBy(history: seq<Tagged>, i: nat): seq<Frame> {
    if history == [] then []
    else SentBy(history[..|history| - 1], i)
         + (if history[|history| - 1].origin == FromExec(i) then [history[|history| - 1].frame] else [])
  }

  lemma SentBySnoc(history: seq<Tagged>, t: Tagged, i: nat)
    ensures SentBy(history + [t], i) == SentBy(history, i) + (if t.origin == FromExec(i) then [t.frame] else [])
  {
    assert (history + [t])[..|history|] == history;
  }

  /** What job j must have sent by now, given its phase. */
  ghost predicate PhaseOk(j: Job, sent: seq<Frame>) {
    && ValidExec(j.frame)
    && j.out == WriteAll(CapOf(j.frame), j.outW) && j.err == WriteAll(CapOf(j.frame), j.errW)
    && match j.phase
       case Registered => sent == [] && j.outW == j.errW == []
       case Refusing => sent == [] && j.outW == j.errW == []
       case Refused => sent == [FailFrame(j.frame, "busy")]
       case Spawned => sent == [] && j.outW == j.errW == []
       case Live(acked) => sent == if acked then [AckFrame(j.frame)] else []
       case Flushing(todo, oc) => sent + todo == ExecFrames(j.frame, oc) && FateOk(j, oc)
       case Returned(oc) => sent == ExecFrames(j.frame, oc) && FateOk(j, oc)
       case CancelDone(oc) => sent == ExecFrames(j.frame, oc) && FateOk(j, oc)
       case Released(oc) => sent == ExecFrames(j.frame, oc) && FateOk(j, oc)
       case Finished(oc) => sent == ExecFrames(j.frame, oc) && FateOk(j, oc)
  }

  /** The recorded outcome is possible for this exec, and is what the process did. */
  predicate FateOk(j: Job, oc: Outcome) {
    j.frame.exec.Some? && Possible(j.frame.exec.value, oc) && (oc.Ran? ==> oc.out == j.outW && oc.err == j.errW)
  }

  ghost predicate JobsOk(s: State) {
    forall i :: 0 <= i < |s.jobs| ==> PhaseOk(s.jobs[i], SentBy(s.history, i))
  }

  /** Every frame on `out` names the exec or the shell it came from. */
  predicate TagOk(s: State, t: Tagged) {
    match t.origin
    case FromExec(i) => i < |s.jobs| && t.frame.sid == s.jobs[i].frame.sid && t.frame.eid == s.jobs[i].frame.eid
    case FromPty => t.frame.eid == "" && t.frame.sid in s.ptys
    case Control => t.frame.sid == "" && t.frame.eid == ""
  }

  ghost predicate TagsOk(s: State) {
    && (forall k :: 0 <= k < |s.history| ==> TagOk(s, s.history[k]))
    && (s.reader.Sending? ==> TagOk(s, s.reader.t) && !s.reader.t.origin.FromExec?)
  }

  /** The reader is at the semaphore, or refusing, exactly with the job in that phase. */
  ghost predicate ReaderOk(s: State) {
    && (s.reader.AtSemaphore? ==> s.reader.i < |s.jobs| && s.jobs[s.reader.i].phase.Registered?)
    && (s.reader.SendingBusy? ==> s.reader.i < |s.jobs| && s.jobs[s.reader.i].phase.Refusing?)
    && (s.reader.CancellingBusy? ==> s.reader.i < |s.jobs| && s.jobs[s.reader.i].phase.Refused?)
    && (s.crash.Some? ==> s.reader.Stopped?)
  }

  /* ---- The semaphore ---- */

  predicate HoldsSlot(p: Phase) { p.Spawned? || p.Live? || p.Flushing? || p.Returned? || p.CancelDone? }

  function Holding(jobs: seq<Job>): nat {
    if jobs == [] then 0 else Holding(jobs[..|jobs| - 1]) + (if HoldsSlot(jobs[|jobs| - 1].phase) then 1 else 0)
  }

  lemma {:induction false} HoldingUpdate(jobs: seq<Job>, i: nat, j: Job)
    requires i < |jobs|
    ensures Holding(jobs[i := j]) + (if HoldsSlot(jobs[i].phase) then 1 else 0)
            == Holding(jobs) + (if HoldsSlot(j.phase) then 1 else 0)
  {
    var front, last := jobs[..|jobs| - 1], jobs[|jobs| - 1];
    if i < |front| {
      HoldingUpdate(front, i, j);
      assert jobs[i := j][..|jobs| - 1] == front[i := j];
    } else {
      assert jobs[i := j][..|jobs| - 1] == front;
    }
  }

  lemma {:induction false} HoldingSome(jobs: seq<Job>, i: nat)
    requires i < |jobs| && HoldsSlot(jobs[i].phase)
    ensures Holding(jobs) > 0
  {
    if i < |jobs| - 1 {
      HoldingSome(jobs[..|jobs| - 1], i);
    }
  }

  ghost predicate SemOk(s: State) { s.sem == Holding(s.jobs) <= MAX_EXECS }

  /* ---- The cancel map ---- */

  ghost predicate DistinctIds(jobs: seq<Job>) {
    forall i, k :: 0 <= i < k < |jobs| ==> jobs[i].frame.eid != jobs[k].frame.eid
  }

  /** Every entry belongs to a job of that id. With distinct ids, a job is in the map under
      its own id from its dispatch until its goroutine removes it; a refused one stays. */
  ghost predicate CancelsOk(s: State) {
    && (forall e :: e in s.cancels ==> s.cancels[e] < |s.jobs| && s.jobs[s.cancels[e]].frame.eid == e)
    && (DistinctIds(s.jobs) ==>
          forall i :: 0 <= i < |s.jobs| ==> InMap(s, i) == !s.jobs[i].phase.Finished?)
  }

  predicate InMap(s: State, i: nat)
    requires i < |s.jobs|
  {
    s.jobs[i].frame.eid in s.cancels && s.cancels[s.jobs[i].frame.eid] == i
  }

  /* ---- All of it is kept by every step ---- */

  ghost predicate Inv(s: State) {
    JobsOk(s) && TagsOk(s) && ReaderOk(s) && SemOk(s) && CancelsOk(s) && |s.out| <= OUT_CAP
  }

  /** The steps that touch one job: it changes as stated, with at most one frame sent for it. */
  ghost predicate Touches(s: State, t: State, i: nat, j: Job, f: Option<Frame>) {
    && i < |s.jobs| && t.jobs == s.jobs[i := j] && j.frame == s.jobs[i].frame
    && t.history == s.history + (if f.Some? then [Tagged(f.value, FromExec(i))] else [])
    && (f.Some? ==> f.value.sid == j.frame.sid && f.value.eid == j.frame.eid)
    && t.ptys == s.ptys
  }

  lemma TouchKeeps(s: State, t: State, i: nat, j: Job, f: Option<Frame>)
    requires JobsOk(s) && TagsOk(s) && Touches(s, t, i, j, f)
    requires PhaseOk(j, SentBy(s.history, i) + (if f.Some? then [f.value] else []))
    requires t.reader.Sending? ==> t.reader == s.reader
    ensures JobsOk(t) && TagsOk(t)
  {
    hide PhaseOk;
    forall k | 0 <= k < |t.jobs|
      ensures PhaseOk(t.jobs[k], SentBy(t.history, k))
    {
      assert s.history + [] == s.history;
      assert SentBy(s.history, k) + [] == SentBy(s.history, k);
      if f.Some? {
        SentBySnoc(s.history, Tagged(f.value, FromExec(i)), k);
      }
    }
    assert forall k :: 0 <= k < |s.history| ==> TagOk(s, s.history[k]) && TagOk(t, s.history[k]);
  }

  /** The steps that send at most one frame of no exec. */
  lemma QuietKeeps(s: State, t: State, extra: seq<Tagged>)
    requires JobsOk(s) && TagsOk(s) && t.jobs == s.jobs && s.ptys <= t.ptys
    requires t.history == s.history + extra && |extra| <= 1
    requires |extra| == 1 ==> !extra[0].origin.FromExec? && TagOk(t, extra[0])
    requires t.reader.Sending? ==> TagOk(t, t.reader.t) && !t.reader.t.origin.FromExec?
    ensures JobsOk(t) && TagsOk(t)
  {
    hide PhaseOk;
    forall k | 0 <= k < |t.jobs|
      ensures SentBy(t.history, k) == SentBy(s.history, k)
    {
      if |extra| == 1 {
        assert extra == [extra[0]];
        SentBySnoc(s.history, extra[0], k);
      } else {
        assert t.history == s.history;
      }
    }
    assert forall k :: 0 <= k < |s.history| ==> TagOk(s, s.history[k]) && TagOk(t, s.history[k]);
  }
}
