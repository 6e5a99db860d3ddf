/** What holds of one agent connection in every run: the shape of each exec's trace, the
    semaphore and cancel map, and how much output the running execs hold in memory. */
module AgentTraces {
  import opened Prelude
  import opened CapBuffers
  import opened Exec
  import opened AgentLoop
  import AgentRuns
  import Base64
  import RedactChain

  /* ---- Traces ---- */

  /** The handling of the exec is over as far as its frames are concerned. */
  predicate Over(p: Phase) {
    p.Refused? || p.Returned? || p.CancelDone? || p.Released? || p.Finished?
  }

  function Exits(fs: seq<Frame>): nat {
    |Filter(fs, (f: Frame) => f.kind.Exit?)|
  }

  /** At every moment the frames sent for a dispatched exec start one complete trace of the
      grammar; once its handling is over they are one, so they hold exactly one exit. */
  lemma TraceGrammar(run: seq<State>, i: nat)
    requires IsRun(run) && i < |Now(run).jobs|
    ensures var s := Now(run);
            var f, sent := s.jobs[i].frame, SentBy(s.history, i);
            && (exists whole :: Grammar(f, whole) && sent <= whole)
            && (Over(s.jobs[i].phase) ==> Grammar(f, sent) && Exits(sent) == 1)
            && Exits(sent) <= 1
  {
    hide Next, IsRun, RedactChain.Redact, Base64.Encode, WriteAll;
    AgentRuns.RunInv(run);
    var s := Now(run);
    AgentRuns.JobOk(s, i);
    var j, sent := s.jobs[i], SentBy(s.history, i);
    var whole := Whole(j);
    PrefixOfWhole(j, sent);
    WholeGrammar(j);
    OneExit(j.frame, whole, sent);
  }

  /** The complete trace of the job, as far as it is settled. */
  function Whole(j: Job): seq<Frame>
    requires ValidExec(j.frame)
  {
    match j.phase
    case Refusing => [FailFrame(j.frame, "busy")]
    case Refused => [FailFrame(j.frame, "busy")]
    case Flushing(_, oc) => ExecFrames(j.frame, oc)
    case Returned(oc) => ExecFrames(j.frame, oc)
    case CancelDone(oc) => ExecFrames(j.frame, oc)
    case Released(oc) => ExecFrames(j.frame, oc)
    case Finished(oc) => ExecFrames(j.frame, oc)
    case _ => ExecFrames(j.frame, Ran(j.outW, j.errW, 0))
  }

  lemma WholeGrammar(j: Job)
    requires ValidExec(j.frame)
    ensures Grammar(j.frame, Whole(j))
  {
    hide ExecFrames;
    match j.phase
    case Refusing => AgentRuns.FailIds(j.frame, "busy");
    case Refused => AgentRuns.FailIds(j.frame, "busy");
    case Flushing(_, oc) => ExecFramesGrammar(j.frame, oc);
    case Returned(oc) => ExecFramesGrammar(j.frame, oc);
    case CancelDone(oc) => ExecFramesGrammar(j.frame, oc);
    case Released(oc) => ExecFramesGrammar(j.frame, oc);
    case Finished(oc) => ExecFramesGrammar(j.frame, oc);
    case _ => ExecFramesGrammar(j.frame, Ran(j.outW, j.errW, 0));
  }

  lemma PrefixOfWhole(j: Job, sent: seq<Frame>)
    requires PhaseOk(j, sent)
    ensures sent <= Whole(j) && (Over(j.phase) ==> sent == Whole(j))
  {
    hide Tail, WriteAll, FailFrame, Possible;
  }

  /** A trace of the grammar has one exit, its last frame; no part of it has more. */
  lemma OneExit(f: Frame, whole: seq<Frame>, sent: seq<Frame>)
    requires Grammar(f, whole) && sent <= whole
    ensures Exits(whole) == 1 && Exits(sent) <= 1
  {
    var p := (f: Frame) => f.kind.Exit?;
    var front := whole[..|whole| - 1];
    NoneKept(front, p);
    assert whole == front + [whole[|whole| - 1]];
    FilterSnoc(front, whole[|whole| - 1], p);
    if |sent| < |whole| {
      assert sent <= front;
      NoneKept(sent, p);
    } else {
      assert sent == whole;
    }
  }

  lemma {:induction false} NoneKept<T>(s: seq<T>, p: T -> bool)
    requires forall i :: 0 <= i < |s| ==> !p(s[i])
    ensures Filter(s, p) == []
  {
    if s != [] {
      NoneKept(s[..|s| - 1], p);
    }
  }

  /* ---- Projection by exec id ---- */

  /** The frames on `out` that carry this exec id, as an observer of the wire sees them. */
  function WithId(history: seq<Tagged>, eid: string): seq<Frame> {
    if history == [] then []
    else WithId(history[..|history| - 1], eid)
         + (if history[|history| - 1].frame.eid == eid then [history[|history| - 1].frame] else [])
  }

  /** With distinct exec ids, the frames carrying an id are exactly those its own exec sent:
      the trace grammar is what the wire shows. */
  lemma ProjectionIsOwnTrace(run: seq<State>, i: nat)
    requires IsRun(run) && i < |Now(run).jobs| && DistinctIds(Now(run).jobs)
    ensures var s := Now(run);
            WithId(s.history, s.jobs[i].frame.eid) == SentBy(s.history, i)
  {
    hide Next, IsRun, PhaseOk;
    AgentRuns.RunInv(run);
    var s := Now(run);
    ValidJob(s, i);
    OwnTrace(s, s.history, i);
  }

  lemma ValidJob(s: State, i: nat)
    requires JobsOk(s) && i < |s.jobs|
    ensures ValidExec(s.jobs[i].frame)
  {
    AgentRuns.JobOk(s, i);
  }

  lemma {:induction false} OwnTrace(s: State, history: seq<Tagged>, i: nat)
    requires i < |s.jobs| && DistinctIds(s.jobs) && s.jobs[i].frame.eid != ""
    requires forall k :: 0 <= k < |history| ==> TagOk(s, history[k])
    ensures WithId(history, s.jobs[i].frame.eid) == SentBy(history, i)
  {
    if history != [] {
      OwnTrace(s, history[..|history| - 1], i);
      var t := history[|history| - 1];
      assert TagOk(s, t);
      if t.origin.FromExec? && t.origin.i != i {
        var k := t.origin.i;
        assert k < i || i < k;
      }
    }
  }

  /* ---- The multiplexer ---- */

  /** The semaphore counts the execs that hold a slot, of which there are at most eight. With
      distinct ids the keys of the cancel map are the ids admitted and not yet removed,
      the refused ones included, each with its own exec's cancel function. */
  lemma Multiplexer(run: seq<State>)
    requires IsRun(run)
    ensures var s := Now(run);
            && s.sem == Holding(s.jobs) <= MAX_EXECS
            && (DistinctIds(s.jobs) ==>
                  && s.cancels.Keys == (set i | 0 <= i < |s.jobs| && !s.jobs[i].phase.Finished? :: s.jobs[i].frame.eid)
                  && forall i :: 0 <= i < |s.jobs| && !s.jobs[i].phase.Finished? ==>
                       s.cancels[s.jobs[i].frame.eid] == i)
  {
    hide Next, IsRun, JobsOk, TagsOk;
    AgentRuns.RunInv(run);
    var s := Now(run);
    if DistinctIds(s.jobs) {
      forall i | 0 <= i < |s.jobs| && !s.jobs[i].phase.Finished?
        ensures s.jobs[i].frame.eid in s.cancels && s.cancels[s.jobs[i].frame.eid] == i
      {
        assert InMap(s, i);
      }
      forall e | e in s.cancels
        ensures exists i :: 0 <= i < |s.jobs| && !s.jobs[i].phase.Finished? && s.jobs[i].frame.eid == e
      {
        var i := s.cancels[e];
        assert InMap(s, i);
      }
    }
  }

  /** A cancel frame for e cancels the exec of id e, unless its goroutine has already
      removed it, and leaves every other exec alone. */
  lemma CancelHitsItsOwn(run: seq<State>, f: Frame, ptyFails: bool, k: nat)
    requires IsRun(run) && DistinctIds(Now(run).jobs) && k < |Now(run).jobs|
    requires f.kind.Cancel? && f.eid != "" && Now(run).reader.Idle?
    ensures var s := Now(run);
            var t := Next(s, Receive(f, ptyFails));
            && t.Some? && |t.value.jobs| == |s.jobs|
            && t.value.jobs[k] == (if s.jobs[k].frame.eid == f.eid && !s.jobs[k].phase.Finished?
                                   then s.jobs[k].(cancelled := true) else s.jobs[k])
  {
    hide IsRun, JobsOk, TagsOk, JobStep;
    AgentRuns.RunInv(run);
    var s := Now(run);
    assert InMap(s, k) == !s.jobs[k].phase.Finished?;
    if f.eid in s.cancels {
      var i := s.cancels[f.eid];
      assert InMap(s, i);
      assert i != k ==> s.jobs[i].frame.eid != s.jobs[k].frame.eid by {
        assert i < k || k < i || i == k;
      }
    }
  }

  /** The guard on giving a slot back never holds an exec up: whenever its goroutine gets
      there, the semaphore has the slot to give. */
  lemma SlotCanAlwaysBeReturned(run: seq<State>, i: nat)
    requires IsRun(run) && Now(run).crash.None? && i < |Now(run).jobs| && Now(run).jobs[i].phase.CancelDone?
    ensures Next(Now(run), Release(i)).Some? && Next(Now(run), Release(i)).value.sem + 1 == Now(run).sem
  {
    hide IsRun, JobsOk, TagsOk, CancelsOk, Holding;
    AgentRuns.RunInv(run);
    HoldingSome(Now(run).jobs, i);
  }

  /* ---- Memory ---- */

  /** The bytes held by the capped buffers of the running execs. */
  function Buffered(jobs: seq<Job>): nat {
    if jobs == [] then 0
    else
      var j := jobs[|jobs| - 1];
      Buffered(jobs[..|jobs| - 1]) + (if HoldsSlot(j.phase) then |j.out.buf| + |j.err.buf| else 0)
  }

  lemma {:induction false} BufferedBound(s: State, n: nat, c: nat)
    requires n <= |s.jobs| && JobsOk(s)
    requires forall i :: 0 <= i < n ==> s.jobs[i].frame.exec.Some? && CapOf(s.jobs[i].frame) <= c
    ensures Buffered(s.jobs[..n]) <= 2 * c * Holding(s.jobs[..n])
  {
    hide PhaseOk, SentBy;
    if n > 0 {
      var j := s.jobs[n - 1];
      BufferedBound(s, n - 1, c);
      JobBuffers(s, n - 1, c);
      assert s.jobs[..n][..n - 1] == s.jobs[..n - 1];
      var h := Holding(s.jobs[..n - 1]);
      assert 2 * c * (h + 1) == 2 * c * h + 2 * c;
    }
  }

  lemma JobBuffers(s: State, i: nat, c: nat)
    requires JobsOk(s) && i < |s.jobs| && s.jobs[i].frame.exec.Some? && CapOf(s.jobs[i].frame) <= c
    ensures |s.jobs[i].out.buf| + |s.jobs[i].err.buf| <= 2 * c
  {
    hide ExecFrames, Possible, SentBy;
    AgentRuns.JobOk(s, i);
    var j := s.jobs[i];
    HoldsFirstBytes(CapOf(j.frame), j.outW);
    HoldsFirstBytes(CapOf(j.frame), j.errW);
  }

  /** When no exec frame asks for more than c bytes per stream, the running execs together
      never hold more than 8 * 2 * c bytes of output. */
  lemma MemoryBound(run: seq<State>, c: nat)
    requires IsRun(run)
    requires forall i :: 0 <= i < |Now(run).jobs| ==>
               Now(run).jobs[i].frame.exec.Some? && CapOf(Now(run).jobs[i].frame) <= c
    ensures Buffered(Now(run).jobs) <= MAX_EXECS * 2 * c
  {
    hide Next, IsRun, Inv;
    AgentRuns.RunInv(run);
    InvMemory(Now(run), c);
  }

  lemma InvMemory(s: State, c: nat)
    requires Inv(s)
    requires forall i :: 0 <= i < |s.jobs| ==> s.jobs[i].frame.exec.Some? && CapOf(s.jobs[i].frame) <= c
    ensures Buffered(s.jobs) <= MAX_EXECS * 2 * c
  {
    hide JobsOk, TagsOk, CancelsOk, Holding, Buffered, CapOf;
    BufferedBound(s, |s.jobs|, c);
    assert s.jobs[..|s.jobs|] == s.jobs;
    Scaled(c, Holding(s.jobs));
  }

  lemma Scaled(c: nat, h: nat)
    requires h <= MAX_EXECS
    ensures 2 * c * h <= MAX_EXECS * 2 * c
  {
    assert (2 * c) * h <= (2 * c) * MAX_EXECS;
  }
}
