/** cmd/agent/pty.go: the registry of interactive shells of one agent connection, and who
    closes each shell. */
module Pty {
  import opened Prelude
  import Runs

  const MAX_PTYS := 8

  /* ---- The registry: a map from session id to shell ---- */

  /** put: None when the id is taken or the registry is full. */
  function PutInto(m: map<string, nat>, sid: string, p: nat): Option<map<string, nat>> {
    if sid in m || |m| >= MAX_PTYS then None else Some(m[sid := p])
  }

  class PtyRegistry {
    var sessions: map<string, nat>

    constructor ()
      ensures sessions == map[]
    {
      sessions := map[];
    }

    method Get(sid: string) returns (p: Option<nat>)
      ensures p == if sid in sessions then Some(sessions[sid]) else None
    {
      p := if sid in sessions then Some(sessions[sid]) else None;
    }

    method Put(sid: string, p: nat) returns (ok: bool)
      modifies this
      ensures ok <==> sid !in old(sessions) && |old(sessions)| < 8
      ensures sessions == if ok then old(sessions)[sid := p] else old(sessions)
      ensures PutInto(old(sessions), sid, p) == if ok then Some(sessions) else None
      ensures |old(sessions)| <= MAX_PTYS ==> |sessions| <= MAX_PTYS
    {
      if sid in sessions {
        return false;
      }
      if |sessions| >= MAX_PTYS {
        return false;
      }
      sessions := sessions[sid := p];
      ok := true;
    }

    method Delete(sid: string) returns (p: Option<nat>)
      modifies this
      ensures p == if sid in old(sessions) then Some(old(sessions)[sid]) else None
      ensures sessions == old(sessions) - {sid}
    {
      p := if sid in sessions then Some(sessions[sid]) else None;
      sessions := sessions - {sid};
    }

    /** First half of closeAll: the map is swapped out under the lock. */
    method TakeAll() returns (all: set<nat>)
      modifies this
      ensures all == old(sessions).Values && sessions == map[]
    {
      all := sessions.Values;
      sessions := map[];
    }
  }

  /* ---- The goroutines around it ---- */

  /** Who holds a shell: the registry, the dispatch loop, some shell's reader goroutine, or
      nobody any more because it has been closed. */
  datatype Holder = InRegistry | Loop | Reader(r: nat) | Closed

  datatype ReaderPc = NotStarted | Running | Owes(k: nat) | Exited

  datatype Shell = Shell(sid: string, holder: Holder, closes: nat, reader: ReaderPc)

  datatype LoopPc =
    | Idle
    | Spawned(i: nat)          // shell spawned, put comes next
    | MustClose(i: nat)        // holds a shell taken out of, or refused by, the registry
    | ClosingAll(rest: set<nat>)
    | Gone

  datatype State = State(shells: seq<Shell>, reg: map<string, nat>, loop: LoopPc)

  datatype Action =
    | Spawn(sid: string)       // pty.start, after a successful spawn
    | PutNext
    | DeleteNext(sid: string)  // cancel with an empty exec id, or a failed stdin write
    | CloseNext
    | ReaderExit(i: nat)       // the reader goroutine of shell i ends: delete(sid)
    | ReaderClose(i: nat)
    | Disconnect               // the dispatch loop returns: closeAll takes everything
    | CloseOne(k: nat)
    | Finish

  const INIT := State([], map[], Idle)

  function Hold(s: State, k: nat, h: Holder): State
    requires k < |s.shells|
  {
    s.(shells := s.shells[k := s.shells[k].(holder := h)])
  }

  function CloseShell(s: State, k: nat): State
    requires k < |s.shells|
  {
    s.(shells := s.shells[k := s.shells[k].(holder := Closed, closes := s.shells[k].closes + 1)])
  }

  function SetReader(s: State, i: nat, pc: ReaderPc): State
    requires i < |s.shells|
  {
    s.(shells := s.shells[i := s.shells[i].(reader := pc)])
  }

  function Next(s: State, a: Action): Option<State> {
    match a
    case Spawn(sid) =>
      if !s.loop.Idle? then None
      else Some(State(s.shells + [Shell(sid, Loop, 0, NotStarted)], s.reg, Spawned(|s.shells|)))
    case PutNext =>
      if !(s.loop.Spawned? && s.loop.i < |s.shells|) then None
      else
        var i := s.loop.i;
        (match PutInto(s.reg, s.shells[i].sid, i)
         case None => Some(s.(loop := MustClose(i)))
         case Some(m) => Some(SetReader(Hold(s, i, InRegistry), i, Running).(reg := m, loop := Idle)))
    case DeleteNext(sid) =>
      if !s.loop.Idle? then None
      else if sid in s.reg && s.reg[sid] < |s.shells|
      then Some(Hold(s, s.reg[sid], Loop).(reg := s.reg - {sid}, loop := MustClose(s.reg[sid])))
      else Some(s)
    case CloseNext =>
      if s.loop.MustClose? && s.loop.i < |s.shells| then Some(CloseShell(s, s.loop.i).(loop := Idle)) else None
    case ReaderExit(i) =>
      if !(i < |s.shells| && s.shells[i].reader.Running?) then None
      else
        var sid := s.shells[i].sid;
        if sid in s.reg && s.reg[sid] < |s.shells|
        then Some(SetReader(Hold(s, s.reg[sid], Reader(i)).(reg := s.reg - {sid}), i, Owes(s.reg[sid])))
        else Some(SetReader(s, i, Exited))
    case ReaderClose(i) =>
      if i < |s.shells| && s.shells[i].reader.Owes? && s.shells[i].reader.k < |s.shells|
      then Some(SetReader(CloseShell(s, s.shells[i].reader.k), i, Exited)) else None
    case Disconnect =>
      if !s.loop.Idle? then None
      else
        Some(State(seq(|s.shells|, k requires 0 <= k < |s.shells| =>
                         if k in s.reg.Values then s.shells[k].(holder := Loop) else s.shells[k]),
                   map[], ClosingAll(s.reg.Values)))
    case CloseOne(k) =>
      if s.loop.ClosingAll? && k in s.loop.rest && k < |s.shells|
      then Some(CloseShell(s, k).(loop := ClosingAll(s.loop.rest - {k}))) else None
    case Finish =>
      if s.loop == ClosingAll({}) then Some(s.(loop := Gone)) else None
  }

  /** A step is any enabled action. */
  ghost predicate Steps(s: State, t: State) { exists a: Action :: Next(s, a) == Some(t) }

  /** A run: the states passed through, from INIT on. */
  ghost predicate IsRun(run: seq<State>) { Runs.IsRun(run, INIT, Steps) }

  /** The state the run has reached. */
  function Now(run: seq<State>): State { Runs.Now(run, INIT) }

  /** A run but for its last step, and that step. */
  lemma Shorter(run: seq<State>) returns (a: Action)
    requires IsRun(run) && |run| > 1
    ensures IsRun(run[..|run| - 1]) && Next(Now(run[..|run| - 1]), a) == Some(Now(run))
  {
    hide Next;
    Runs.Shorter(run, INIT, Steps);
    assert Steps(Now(run[..|run| - 1]), Now(run));
    a :| Next(Now(run[..|run| - 1]), a) == Some(Now(run));
  }

  /* ---- The invariant ---- */

  /** The shells the dispatch loop will close. */
  function Owed(pc: LoopPc): set<nat> {
    match pc
    case Spawned(i) => {i}
    case MustClose(i) => {i}
    case ClosingAll(rest) => rest
    case _ => {}
  }

  /** Shell k is in exactly one of four places, and has been closed once if and only if it
      is in the last: the registry under its own id; owed by the loop; owed by one reader;
      closed. */
  ghost predicate ShellOk(s: State, k: nat)
    requires k < |s.shells|
  {
    var p := s.shells[k];
    && (p.holder.InRegistry? <==> p.sid in s.reg && s.reg[p.sid] == k)
    && (p.holder.Loop? <==> k in Owed(s.loop))
    && (p.holder.Reader? ==> p.holder.r < |s.shells| && s.shells[p.holder.r].reader == Owes(k))
    && (p.reader.Owes? ==> p.reader.k < |s.shells| && s.shells[p.reader.k].holder == Reader(k))
    && p.closes == (if p.holder.Closed? then 1 else 0)
    && (p.reader.NotStarted? <== s.loop == Spawned(k))
  }

  ghost predicate Inv(s: State) {
    && |s.reg| <= MAX_PTYS
    && (forall sid :: sid in s.reg ==> s.reg[sid] < |s.shells| && s.shells[s.reg[sid]].sid == sid)
    && (forall k :: 0 <= k < |s.shells| ==> ShellOk(s, k))
    && (forall k :: k in Owed(s.loop) ==> k < |s.shells|)
    && (s.loop.ClosingAll? || s.loop.Gone? ==> s.reg == map[])
  }

  lemma RemoveSize(m: map<string, nat>, sid: string)
    ensures |m - {sid}| <= |m|
  {
    assert (m - {sid}).Keys <= m.Keys;
    SubsetSize((m - {sid}).Keys, m.Keys);
    assert |m - {sid}| == |(m - {sid}).Keys| && |m| == |m.Keys|;
  }

  lemma {:induction false} SubsetSize(a: set<string>, b: set<string>)
    requires a <= b
    ensures |a| <= |b|
  {
    if x :| x in a {
      SubsetSize(a - {x}, b - {x});
    }
  }

  /** Facts about shell k and the two it may refer to. */
  lemma Unfold(s: State, k: nat)
    requires Inv(s) && k < |s.shells|
    ensures ShellOk(s, k)
    ensures s.shells[k].reader.Owes? ==> ShellOk(s, s.shells[k].reader.k)
    ensures s.shells[k].holder.Reader? ==> ShellOk(s, s.shells[k].holder.r)
  {
    assert ShellOk(s, k);
  }

  lemma DisconnectStep(s: State)
    requires Inv(s) && s.loop.Idle?
    ensures Inv(Next(s, Disconnect).value)
  {
    var t := Next(s, Disconnect).value;
    forall k | 0 <= k < |s.shells|
      ensures s.shells[k].holder.InRegistry? <==> k in s.reg.Values
    {
      Unfold(s, k);
      if k in s.reg.Values {
        var sid :| sid in s.reg && s.reg[sid] == k;
      }
    }
    forall k | 0 <= k < |t.shells|
      ensures ShellOk(t, k)
    {
      Unfold(s, k);
    }
  }

  lemma SpawnStep(s: State, sid: string)
    requires Inv(s) && s.loop.Idle?
    ensures Inv(Next(s, Spawn(sid)).value)
  {
    var t := Next(s, Spawn(sid)).value;
    forall k | 0 <= k < |s.shells|
      ensures ShellOk(t, k)
    {
      Unfold(s, k);
    }
    assert ShellOk(t, |s.shells|);
  }

  /** The loop closes a shell it holds. */
  lemma LoopCloseStep(s: State, k: nat, pc: LoopPc)
    requires Inv(s) && k < |s.shells| && k in Owed(s.loop) && Owed(pc) == Owed(s.loop) - {k}
    requires !pc.Spawned? && (pc.ClosingAll? || pc.Gone? ==> s.reg == map[])
    ensures Inv(CloseShell(s, k).(loop := pc))
  {
    var t := CloseShell(s, k).(loop := pc);
    forall j | 0 <= j < |t.shells|
      ensures ShellOk(t, j)
    {
      Unfold(s, j);
      Unfold(s, k);
    }
  }

  lemma ReaderCloseStep(s: State, i: nat)
    requires Inv(s) && i < |s.shells| && s.shells[i].reader.Owes? && s.shells[i].reader.k < |s.shells|
    ensures Inv(SetReader(CloseShell(s, s.shells[i].reader.k), i, Exited))
  {
    var t := SetReader(CloseShell(s, s.shells[i].reader.k), i, Exited);
    forall j | 0 <= j < |t.shells|
      ensures ShellOk(t, j)
    {
      Unfold(s, j);
      Unfold(s, i);
    }
  }

  /** put accepts the shell the loop holds, or leaves it to be closed. */
  lemma PutAccepted(s: State, i: nat, m: map<string, nat>)
    requires Inv(s) && s.loop == Spawned(i) && i < |s.shells| && PutInto(s.reg, s.shells[i].sid, i) == Some(m)
    ensures Inv(SetReader(Hold(s, i, InRegistry), i, Running).(reg := m, loop := Idle))
  {
    var t := SetReader(Hold(s, i, InRegistry), i, Running).(reg := m, loop := Idle);
    Unfold(s, i);
    forall k | 0 <= k < |t.shells|
      ensures ShellOk(t, k)
    {
      Unfold(s, k);
    }
  }

  lemma PutRefused(s: State, i: nat)
    requires Inv(s) && s.loop == Spawned(i) && i < |s.shells|
    ensures Inv(s.(loop := MustClose(i)))
  {
    var t := s.(loop := MustClose(i));
    assert Owed(t.loop) == Owed(s.loop);
    forall k | 0 <= k < |t.shells|
      ensures ShellOk(t, k)
    {
      Unfold(s, k);
    }
  }

  lemma PutStep(s: State)
    requires Inv(s) && Next(s, PutNext).Some?
    ensures Inv(Next(s, PutNext).value)
  {
    hide Inv, PutInto;
    var i := s.loop.i;
    match PutInto(s.reg, s.shells[i].sid, i)
    case Some(m) => PutAccepted(s, i, m);
    case None => PutRefused(s, i);
  }

  lemma DeleteStep(s: State, sid: string)
    requires Inv(s) && s.loop.Idle?
    ensures Inv(Next(s, DeleteNext(sid)).value)
  {
    var t := Next(s, DeleteNext(sid)).value;
    forall k | 0 <= k < |t.shells|
      ensures ShellOk(t, k)
    {
      Unfold(s, k);
    }
    RemoveSize(s.reg, sid);
  }

  /** The reader of shell i takes shell k out of the registry, to close it. */
  lemma ReaderTakes(s: State, i: nat, k: nat)
    requires Inv(s) && i < |s.shells| && s.shells[i].reader.Running?
    requires s.shells[i].sid in s.reg && s.reg[s.shells[i].sid] == k < |s.shells|
    ensures Inv(SetReader(Hold(s, k, Reader(i)).(reg := s.reg - {s.shells[i].sid}), i, Owes(k)))
  {
    var t := SetReader(Hold(s, k, Reader(i)).(reg := s.reg - {s.shells[i].sid}), i, Owes(k));
    Unfold(s, i);
    Unfold(s, k);
    forall j | 0 <= j < |t.shells|
      ensures ShellOk(t, j)
    {
      Unfold(s, j);
    }
    RemoveSize(s.reg, s.shells[i].sid);
  }

  /** It finds nothing under its id: somebody else has taken the shell. */
  lemma ReaderLeaves(s: State, i: nat)
    requires Inv(s) && i < |s.shells| && s.shells[i].reader.Running?
    ensures Inv(SetReader(s, i, Exited))
  {
    var t := SetReader(s, i, Exited);
    forall j | 0 <= j < |t.shells|
      ensures ShellOk(t, j)
    {
      Unfold(s, j);
    }
  }

  lemma ReaderExitStep(s: State, i: nat)
    requires Inv(s) && Next(s, ReaderExit(i)).Some?
    ensures Inv(Next(s, ReaderExit(i)).value)
  {
    hide ShellOk;
    var sid := s.shells[i].sid;
    if sid in s.reg {
      ReaderTakes(s, i, s.reg[sid]);
    } else {
      ReaderLeaves(s, i);
    }
  }

  lemma InvStep(s: State, a: Action)
    requires Inv(s) && Next(s, a).Some?
    ensures Inv(Next(s, a).value)
  {
    hide ShellOk;
    match a
    case Spawn(sid) => SpawnStep(s, sid);
    case Disconnect => DisconnectStep(s);
    case PutNext => PutStep(s);
    case DeleteNext(sid) => DeleteStep(s, sid);
    case ReaderExit(i) => ReaderExitStep(s, i);
    case ReaderClose(i) => ReaderCloseStep(s, i);
    case CloseNext => LoopCloseStep(s, s.loop.i, Idle);
    case CloseOne(k) => LoopCloseStep(s, k, ClosingAll(s.loop.rest - {k}));
    case Finish => FinishStep(s);
  }

  lemma FinishStep(s: State)
    requires Inv(s) && s.loop == ClosingAll({})
    ensures Inv(s.(loop := Gone))
  {
    var t := s.(loop := Gone);
    assert Owed(t.loop) == Owed(s.loop);
    forall k | 0 <= k < |s.shells|
      ensures ShellOk(t, k)
    {
      Unfold(s, k);
    }
  }

  lemma {:induction false} RunInv(run: seq<State>)
    requires IsRun(run)
    ensures Inv(Now(run))
    decreases |run|
  {
    hide Next;
    if |run| > 1 {
      var a := Shorter(run);
      RunInv(run[..|run| - 1]);
      InvStep(Now(run[..|run| - 1]), a);
    }
  }

  /* ---- Main results ---- */

  /** In every interleaving every spawned shell is in the registry under its own session id,
      or held by exactly one goroutine that is about to close it, or closed; it is closed at
      most once, and exactly when it is in the last of these places; and the registry never
      holds more than eight. */
  lemma NoLeakedShell(run: seq<State>, k: nat)
    requires IsRun(run) && k < |Now(run).shells|
    ensures var s := Now(run); var p := s.shells[k];
            && |s.reg| <= MAX_PTYS
            && p.closes <= 1 && (p.closes == 1 <==> p.holder.Closed?)
            && (p.holder.InRegistry? ==> p.sid in s.reg && s.reg[p.sid] == k)
            && (p.holder.Loop? ==> k in Owed(s.loop))
            && (p.holder.Reader? ==> p.holder.r < |s.shells| && s.shells[p.holder.r].reader == Owes(k))
            && (forall r :: 0 <= r < |s.shells| && s.shells[r].reader == Owes(k) ==> p.holder == Reader(r))
  {
    RunInv(run);
    var s := Now(run);
    Unfold(s, k);
    forall r | 0 <= r < |s.shells| && s.shells[r].reader == Owes(k)
      ensures s.shells[k].holder == Reader(r)
    {
      Unfold(s, r);
    }
  }

  /** After the connection is torn down and the goroutines have ended, every shell that was
      ever spawned has been closed exactly once. */
  lemma AllClosedAtTheEnd(run: seq<State>, k: nat)
    requires IsRun(run) && k < |Now(run).shells| && Now(run).loop.Gone?
    requires forall r :: 0 <= r < |Now(run).shells| ==> !Now(run).shells[r].reader.Owes?
    ensures Now(run).shells[k].holder.Closed? && Now(run).shells[k].closes == 1
  {
    RunInv(run);
    Unfold(Now(run), k);
  }

  /** The exit of a reader leaves every other shell alone exactly when its own shell is still
      registered or its id is free; otherwise the id names a newer shell, which it takes. */
  lemma ReaderExitSparesOthersIff(run: seq<State>, i: nat)
    requires IsRun(run) && i < |Now(run).shells| && Now(run).shells[i].reader.Running?
    ensures var s := Now(run);
            var t := Next(s, ReaderExit(i));
            && t.Some? && |t.value.shells| == |s.shells|
            && ((forall k :: 0 <= k < |s.shells| && k != i ==> t.value.shells[k] == s.shells[k])
                <==> s.shells[i].holder.InRegistry? || s.shells[i].sid !in s.reg)
  {
    RunInv(run);
    var s := Now(run);
    Unfold(s, i);
    if s.shells[i].sid in s.reg {
      Unfold(s, s.reg[s.shells[i].sid]);
    }
  }

  /** A reader deletes by session id only: after its own shell was cancelled and the id used
      again, its exit takes out and closes the newer shell. */
  lemma ReaderMayCloseSuccessor()
    ensures exists run :: IsRun(run) && |Now(run).shells| == 2 && Now(run).shells[1].holder == Reader(0)
  {
    hide Next;
    var s1, s2 := SpawnAndPut(INIT, "s");
    var s3, s4 := DeleteAndClose(s2, "s");
    var s5, s6 := SpawnAndPut(s4, "s");
    var s7 := ExitReader(s6);
    var run := [INIT, s1, s2, s3, s4, s5, s6, s7];
    assert IsRun(run) && Now(run) == s7;
  }

  lemma SpawnAndPut(s: State, sid: string) returns (u: State, t: State)
    requires s.loop.Idle? && sid !in s.reg && |s.reg| < MAX_PTYS
    ensures Steps(s, u) && Steps(u, t)
    ensures t == State(s.shells + [Shell(sid, InRegistry, 0, Running)], s.reg[sid := |s.shells|], Idle)
  {
    u := Next(s, Spawn(sid)).value;
    t := Next(u, PutNext).value;
    assert t.shells == s.shells + [Shell(sid, InRegistry, 0, Running)];
  }

  lemma DeleteAndClose(s: State, sid: string) returns (u: State, t: State)
    requires s.loop.Idle? && sid in s.reg && s.reg[sid] < |s.shells|
    ensures Steps(s, u) && Steps(u, t)
    ensures t.loop.Idle? && t.reg == s.reg - {sid} && |t.shells| == |s.shells|
    ensures forall k :: 0 <= k < |s.shells| ==>
              t.shells[k].sid == s.shells[k].sid && t.shells[k].reader == s.shells[k].reader
  {
    u := Next(s, DeleteNext(sid)).value;
    t := Next(u, CloseNext).value;
  }

  lemma ExitReader(s: State) returns (t: State)
    requires |s.shells| == 2 && s.shells[0].sid == "s" && s.shells[0].reader.Running? && "s" in s.reg && s.reg["s"] == 1
    ensures Steps(s, t) && |t.shells| == 2 && t.shells[1].holder == Reader(0)
  {
    t := Next(s, ReaderExit(0)).value;
  }
}
