/** The frames of one exec: what runExec of cmd/agent/exec.go sends, and what
    collectExecResult of internal/server/exec_api.go makes of them. */
module Exec {
  import opened Prelude
  import opened CapBuffers
  import Base64
  import RedactChain
  import Redaction
  import Secrets
  import Patterns
  import Utf8

  datatype Kind =
    | Ping | Pong | ExecStart | ExecAck | Stdout | Stderr | Exit | Cancel | Error
    | PtyStart | PtyData | PtyResize | PtyExit | Unknown

  datatype Script = Script(interpreter: string, content: string)
  datatype ExecSpec = ExecSpec(argv: seq<string>, script: Option<Script>, timeoutMs: int, outputCap: int)
  datatype ExitInfo = ExitInfo(code: int, truncated: bool)

  /** The envelope of every message; an absent id is the empty string. */
  datatype Frame = Frame(kind: Kind, sid: string, eid: string, exec: Option<ExecSpec>,
                         output: Option<Bytes>, exit: Option<ExitInfo>, error: Option<string>, hasPty: bool)

  function Bare(kind: Kind, sid: string, eid: string): Frame {
    Frame(kind, sid, eid, None, None, None, None, false)
  }

  const DEFAULT_CAP := 1_048_576
  const MAX_CAP := 8_388_608

  function CapOf(f: Frame): int
    requires f.exec.Some?
  {
    if f.exec.value.outputCap <= 0 then DEFAULT_CAP else f.exec.value.outputCap
  }

  /** What the operating system did with one exec: the writes its process made to each
      stream, and how it ended. */
  datatype Outcome =
    | ScriptFailed
    | EmptyArgv
    | StartFailed
    | Ran(out: seq<Bytes>, err: seq<Bytes>, code: int)

  /** The outcomes runExec can have on this spec. */
  predicate Possible(e: ExecSpec, oc: Outcome) {
    match oc
    case ScriptFailed => e.script.Some?
    case EmptyArgv => e.script.None? && e.argv == []
    case _ => e.script.Some? || e.argv != []
  }

  /* ---- The agent's side ---- */

  function AckFrame(f: Frame): Frame { Bare(ExecAck, f.sid, f.eid) }

  function FailFrame(f: Frame, code: string): Frame {
    Bare(Exit, f.sid, f.eid).(exit := Some(ExitInfo(-1, false)), error := Some(code))
  }

  function OutputFrame(f: Frame, kind: Kind, b: Bytes): Frame {
    Bare(kind, f.sid, f.eid).(output := Some(Base64.Encode(RedactChain.Redact(b))))
  }

  function ExitFrame(f: Frame, code: int, truncated: bool): Frame {
    Bare(Exit, f.sid, f.eid).(exit := Some(ExitInfo(code, truncated)))
  }

  /** What follows the ack once the process has ended: each non-empty buffer, then the exit. */
  function Tail(f: Frame, out: Cap, err: Cap, code: int): seq<Frame> {
    (if out.buf != [] then [OutputFrame(f, Stdout, out.buf)] else [])
    + (if err.buf != [] then [OutputFrame(f, Stderr, err.buf)] else [])
    + [ExitFrame(f, code, out.full || err.full)]
  }

  /** Everything runExec sends for f, in order. */
  function ExecFrames(f: Frame, oc: Outcome): seq<Frame>
    requires f.exec.Some?
  {
    match oc
    case ScriptFailed => [FailFrame(f, "script_prepare_failed")]
    case EmptyArgv => [FailFrame(f, "exec_empty_argv")]
    case StartFailed => [FailFrame(f, "exec_start_failed")]
    case Ran(out, err, code) =>
      [AckFrame(f)] + Tail(f, WriteAll(CapOf(f), out), WriteAll(CapOf(f), err), code)
  }

  /** The limit on each stream cut something off. */
  ghost predicate Truncates(cap: int, writes: seq<Bytes>) {
    exists i :: 0 <= i < |writes| && Overflows(cap, writes, i)
  }

  /** The frame carries this text, redacted, base64-coded. */
  predicate Carries(f: Frame, text: Bytes) {
    f.output.Some? && Base64.Decode(f.output.value) == Some(RedactChain.Redact(text)) && f.error.None?
  }

  /** fs tells the relay what became of the exec f. One that did not start gets one exit, with
      code -1 and the reason. One that ran gets an ack, the first bytes of each stream that has
      any, up to the limit it named (1 MiB if it named none), and an exit with the process's
      code and the truncation mark. */
  ghost predicate Reports(f: Frame, oc: Outcome, fs: seq<Frame>)
    requires f.exec.Some?
  {
    && fs != [] && (forall i :: 0 <= i < |fs| ==> fs[i].sid == f.sid && fs[i].eid == f.eid)
    && match oc
       case Ran(out, err, code) =>
         var cap := if f.exec.value.outputCap > 0 then f.exec.value.outputCap else 1_048_576;
         var o, e := Take(Flatten(out), cap), Take(Flatten(err), cap);
         var m, n := if o == [] then 0 else 1, if e == [] then 0 else 1;
         && |fs| == 2 + m + n && fs[0].kind.ExecAck?
         && (o != [] ==> fs[1].kind.Stdout? && Carries(fs[1], o))
         && (e != [] ==> fs[1 + m].kind.Stderr? && Carries(fs[1 + m], e))
         && var last := fs[1 + m + n];
         && last.kind.Exit? && last.error.None?
         && last.exit == Some(ExitInfo(code, Truncates(cap, out) || Truncates(cap, err)))
       case _ =>
         && |fs| == 1 && fs[0].kind.Exit? && fs[0].exit == Some(ExitInfo(-1, false))
         && fs[0].error == Some(if oc.ScriptFailed? then "script_prepare_failed"
                                else if oc.EmptyArgv? then "exec_empty_argv" else "exec_start_failed")
  }

  lemma FramesReport(f: Frame, oc: Outcome)
    requires f.exec.Some?
    ensures Reports(f, oc, ExecFrames(f, oc))
  {
    hide RedactChain.Redact, Base64.Encode, Base64.Decode, WriteAll, Overflows, Take, Flatten;
    if oc.Ran? {
      HoldsFirstBytes(CapOf(f), oc.out);
      HoldsFirstBytes(CapOf(f), oc.err);
      Base64.RoundTrip(RedactChain.Redact(WriteAll(CapOf(f), oc.out).buf));
      Base64.RoundTrip(RedactChain.Redact(WriteAll(CapOf(f), oc.err).buf));
    }
  }

  method RunExec(f: Frame, oc: Outcome) returns (sent: seq<Frame>)
    requires f.exec.Some? && Possible(f.exec.value, oc)
    ensures sent == ExecFrames(f, oc) && Reports(f, oc, sent)
  {
    hide OutputFrame, ExitFrame, FailFrame, AckFrame, WriteAll, Reports;
    FramesReport(f, oc);
    var cap := f.exec.value.outputCap;
    if cap <= 0 {
      cap := DEFAULT_CAP;
    }
    if f.exec.value.script.Some? && oc.ScriptFailed? {
      return [FailFrame(f, "script_prepare_failed")];
    }
    if f.exec.value.script.None? && |f.exec.value.argv| == 0 {
      return [FailFrame(f, "exec_empty_argv")];
    }
    if oc.StartFailed? {
      return [FailFrame(f, "exec_start_failed")];
    }
    sent := [AckFrame(f)];
    var stdout := Capture(cap, oc.out);
    var stderr := Capture(cap, oc.err);
    if |stdout.buf| > 0 {
      sent := sent + [OutputFrame(f, Stdout, stdout.buf)];
    }
    if |stderr.buf| > 0 {
      sent := sent + [OutputFrame(f, Stderr, stderr.buf)];
    }
    sent := sent + [ExitFrame(f, oc.code, stdout.full || stderr.full)];
  }

  /** The process writes to its capped stream until it ends. */
  method Capture(cap: int, writes: seq<Bytes>) returns (b: CapBuffer)
    ensures fresh(b) && b.Valid() && b.max == cap && b.written == writes
  {
    b := new CapBuffer(cap);
    for i := 0 to |writes|
      invariant b.Valid() && b.max == cap && b.written == writes[..i]
      invariant fresh(b)
    {
      var n := b.Write(writes[i]);
      assert writes[..i + 1] == writes[..i] + [writes[i]];
    }
    assert writes[..|writes|] == writes;
  }

  /* ---- The relay's side ---- */

  datatype ExecRes = ExecRes(exitCode: int, stdout: Bytes, stderr: Bytes, truncated: bool)

  function DecodeOutput(f: Frame): Bytes {
    if f.output.None? || f.output.value == [] then []
    else match Base64.Decode(f.output.value)
      case Some(raw) => raw
      case None => []
  }

  /** What has been collected so far, and the result once an exit has arrived. */
  datatype Collected = Collected(out: Bytes, err: Bytes, res: Option<ExecRes>)

  const NOTHING := Collected([], [], None)

  function CollectOne(c: Collected, f: Frame): Collected {
    if c.res.Some? then c
    else match f.kind
      case Stdout => c.(out := c.out + DecodeOutput(f))
      case Stderr => c.(err := c.err + DecodeOutput(f))
      case Exit =>
        c.(res := Some(ExitResult(f, c.out, c.err)))
      case _ => c
  }

  function Collect(fs: seq<Frame>): Collected {
    if fs == [] then NOTHING else CollectOne(Collect(fs[..|fs| - 1]), fs[|fs| - 1])
  }

  /** The decoded output of one stream, in order. */
  function Outputs(fs: seq<Frame>, kind: Kind): Bytes {
    if fs == [] then []
    else Outputs(fs[..|fs| - 1], kind) + (if fs[|fs| - 1].kind == kind then DecodeOutput(fs[|fs| - 1]) else [])
  }

  predicate NoExit(fs: seq<Frame>) { forall i :: 0 <= i < |fs| ==> !fs[i].kind.Exit? }

  /** An output frame with no payload, or one that does not decode, adds nothing. */
  lemma DecodesIff(f: Frame, raw: Bytes)
    ensures raw != [] ==> (DecodeOutput(f) == raw <==> f.output.Some? && Base64.Decode(f.output.value) == Some(raw))
  {
    hide Base64.DecodeGroups;
    assert Base64.Decode([]) == Some([]) by { NothingDecoded(); }
  }

  lemma NothingDecoded()
    ensures Base64.Decode([]) == Some([])
  {
  }

  /** Until an exit arrives each stream is collected in order and by itself, whatever else comes
      in between. */
  lemma {:induction false} CollectsStreams(fs: seq<Frame>)
    ensures NoExit(fs) <==> Collect(fs).res.None?
    ensures NoExit(fs) ==> Collect(fs) == Collected(Outputs(fs, Stdout), Outputs(fs, Stderr), None)
  {
    hide CollectOne, Outputs;
    if fs == [] {
      NothingCollected();
    } else {
      var front, last := fs[..|fs| - 1], fs[|fs| - 1];
      CollectsStreams(front);
      assert fs == front + [last];
      CollectSnoc(front, last);
      OneCollected(front, last);
      OutputsSnoc(front, last, Stdout);
      OutputsSnoc(front, last, Stderr);
    }
  }

  lemma NothingCollected()
    ensures Collect([]) == Collected(Outputs([], Stdout), Outputs([], Stderr), None)
  {
  }

  lemma OutputsSnoc(fs: seq<Frame>, f: Frame, kind: Kind)
    ensures Outputs(fs + [f], kind) == Outputs(fs, kind) + (if f.kind == kind then DecodeOutput(f) else [])
  {
    hide DecodeOutput;
    assert (fs + [f])[..|fs|] == fs;
  }

  lemma OneCollected(fs: seq<Frame>, f: Frame)
    ensures var c := Collect(fs);
            && (CollectOne(c, f).res.None? <==> c.res.None? && !f.kind.Exit?)
            && (c.res.None? && !f.kind.Exit? ==>
                  CollectOne(c, f) == Collected(c.out + (if f.kind.Stdout? then DecodeOutput(f) else []),
                                                c.err + (if f.kind.Stderr? then DecodeOutput(f) else []), None))
  {
    hide DecodeOutput, Collect;
    var c := Collect(fs);
    assert c.out + [] == c.out && c.err + [] == c.err;
  }

  lemma CollectSnoc(fs: seq<Frame>, f: Frame)
    ensures Collect(fs + [f]) == CollectOne(Collect(fs), f)
  {
    assert (fs + [f])[..|fs|] == fs;
  }

  /** One arm of collectExecResult's select. */
  datatype Arrival = Timeout | Closed | Got(f: Frame)

  function Frames(arrivals: seq<Arrival>): seq<Frame> {
    if arrivals == [] then []
    else Frames(arrivals[..|arrivals| - 1])
         + (if arrivals[|arrivals| - 1].Got? then [arrivals[|arrivals| - 1].f] else [])
  }

  /** The result when collectExecResult gives up: what was collected, with exit code -1. */
  function Partial(fs: seq<Frame>): ExecRes { var c := Collect(fs); ExecRes(-1, c.out, c.err, false) }

  predicate IsExit(a: Arrival) { a.Got? && a.f.kind.Exit? }

  /** The n-th arrival is the one that ends the wait: the first exit, timeout or close. */
  predicate EndsAt(arrivals: seq<Arrival>, n: nat) {
    && n < |arrivals| && (IsExit(arrivals[n]) || !arrivals[n].Got?)
    && forall j :: 0 <= j < n ==> arrivals[j].Got? && !IsExit(arrivals[j])
  }

  /** What is returned there: the output before it, and the exit's code and mark if it is one. */
  function ResultAt(arrivals: seq<Arrival>, n: nat): ExecRes
    requires n < |arrivals|
  {
    var fs := Frames(arrivals[..n]);
    if IsExit(arrivals[n]) && arrivals[n].f.exit.Some? then
      var x := arrivals[n].f.exit.value;
      ExecRes(x.code, Outputs(fs, Stdout), Outputs(fs, Stderr), x.truncated)
    else ExecRes(-1, Outputs(fs, Stdout), Outputs(fs, Stderr), false)
  }

  /** Drains the session until an exit, a timeout or a close; None while still waiting. A
      timeout or a close returns the output collected so far. */
  method CollectExecResult(arrivals: seq<Arrival>) returns (res: Option<ExecRes>, timedOut: bool)
    ensures (forall i :: 0 <= i < |arrivals| ==> arrivals[i].Got?) ==> res == Collect(Frames(arrivals)).res && !timedOut
    ensures res.None? ==>
              !timedOut && (forall i :: 0 <= i < |arrivals| ==> arrivals[i].Got?) && Collect(Frames(arrivals)).res.None?
    ensures res.Some? ==>
              exists n: nat :: EndsAt(arrivals, n) && res == Some(ResultAt(arrivals, n))
                               && timedOut == arrivals[n].Timeout?
  {
    hide Collect, Frames, CollectOne, EndsAt, ResultAt;
    var stdout: Bytes, stderr: Bytes := [], [];
    timedOut := false;
    NothingArrived(arrivals);
    for i := 0 to |arrivals|
      invariant Waiting(arrivals, i, stdout, stderr)
    {
      match arrivals[i] {
        case Timeout =>
          GivesUp(arrivals, i, stdout, stderr);
          return Some(ExecRes(-1, stdout, stderr, false)), true;
        case Closed =>
          GivesUp(arrivals, i, stdout, stderr);
          return Some(ExecRes(-1, stdout, stderr, false)), false;
        case Got(f) =>
          if f.kind.Exit? {
            GotExit(arrivals, i, stdout, stderr);
            return Some(ExitResult(f, stdout, stderr)), false;
          }
          GotOutput(arrivals, i, stdout, stderr);
          stdout, stderr := Append(f, stdout, stderr);
      }
    }
    assert arrivals[..|arrivals|] == arrivals;
    res := None;
  }

  /** Only frames have come so far, and no exit; this is the output they carried. */
  ghost predicate Waiting(arrivals: seq<Arrival>, i: nat, out: Bytes, err: Bytes) {
    && i <= |arrivals| && (forall j :: 0 <= j < i ==> arrivals[j].Got?)
    && Collect(Frames(arrivals[..i])) == Collected(out, err, None)
  }

  function ExitResult(f: Frame, out: Bytes, err: Bytes): ExecRes {
    if f.exit.Some? then ExecRes(f.exit.value.code, out, err, f.exit.value.truncated) else ExecRes(-1, out, err, false)
  }

  lemma NothingArrived(arrivals: seq<Arrival>)
    ensures Waiting(arrivals, 0, [], [])
  {
  }

  /** No exit has arrived, and these are the outputs. */
  lemma WaitingSoFar(arrivals: seq<Arrival>, i: nat, out: Bytes, err: Bytes)
    requires Waiting(arrivals, i, out, err)
    ensures var fs := Frames(arrivals[..i]); out == Outputs(fs, Stdout) && err == Outputs(fs, Stderr)
    ensures forall j :: 0 <= j < i ==> !IsExit(arrivals[j])
  {
    hide Collect, Frames, Outputs;
    CollectsStreams(Frames(arrivals[..i]));
    forall j | 0 <= j < i
      ensures !IsExit(arrivals[j])
    {
      ArrivedFrame(arrivals[..i], j);
    }
  }

  lemma {:induction false} ArrivedFrame(arrivals: seq<Arrival>, j: nat)
    requires j < |arrivals| && arrivals[j].Got?
    ensures arrivals[j].f in Frames(arrivals)
  {
    if j < |arrivals| - 1 {
      ArrivedFrame(arrivals[..|arrivals| - 1], j);
    }
  }

  lemma GivesUp(arrivals: seq<Arrival>, i: nat, out: Bytes, err: Bytes)
    requires i < |arrivals| && Waiting(arrivals, i, out, err) && !arrivals[i].Got?
    ensures EndsAt(arrivals, i) && ResultAt(arrivals, i) == ExecRes(-1, out, err, false)
  {
    hide Collect, Frames, Outputs;
    WaitingSoFar(arrivals, i, out, err);
  }

  lemma GotExit(arrivals: seq<Arrival>, i: nat, out: Bytes, err: Bytes)
    requires i < |arrivals| && Waiting(arrivals, i, out, err) && arrivals[i].Got? && arrivals[i].f.kind.Exit?
    ensures var res := Some(ExitResult(arrivals[i].f, out, err));
            EndsAt(arrivals, i) && Some(ResultAt(arrivals, i)) == res && Collect(Frames(arrivals)).res == res
  {
    hide Collect, Frames, DecodeOutput, Outputs;
    WaitingSoFar(arrivals, i, out, err);
    FramesStep(arrivals, i);
    CollectSnoc(Frames(arrivals[..i]), arrivals[i].f);
    CollectStays(arrivals, i + 1);
  }

  lemma GotOutput(arrivals: seq<Arrival>, i: nat, out: Bytes, err: Bytes)
    requires i < |arrivals| && Waiting(arrivals, i, out, err) && arrivals[i].Got?
    ensures Collect(Frames(arrivals[..i + 1])) == CollectOne(Collected(out, err, None), arrivals[i].f)
  {
    hide Collect, Frames, CollectOne;
    FramesStep(arrivals, i);
    CollectSnoc(Frames(arrivals[..i]), arrivals[i].f);
  }

  method Append(f: Frame, stdout: Bytes, stderr: Bytes) returns (out: Bytes, err: Bytes)
    requires !f.kind.Exit?
    ensures CollectOne(Collected(stdout, stderr, None), f) == Collected(out, err, None)
  {
    out, err := stdout, stderr;
    if f.kind.Stdout? {
      out := out + DecodeOutput(f);
    } else if f.kind.Stderr? {
      err := err + DecodeOutput(f);
    }
  }

  /** Where the wait ends is settled by the arrivals alone. */
  lemma EndsOnce(arrivals: seq<Arrival>, m: nat, n: nat)
    requires EndsAt(arrivals, m) && EndsAt(arrivals, n)
    ensures m == n
  {
  }

  lemma FramesStep(arrivals: seq<Arrival>, i: nat)
    requires i < |arrivals|
    ensures Frames(arrivals[..i + 1])
            == Frames(arrivals[..i]) + (if arrivals[i].Got? then [arrivals[i].f] else [])
  {
    assert arrivals[..i + 1][..i] == arrivals[..i];
  }

  /** Frames after the exit change nothing. */
  lemma {:induction false} CollectStays(arrivals: seq<Arrival>, i: nat)
    requires i <= |arrivals| && Collect(Frames(arrivals[..i])).res.Some?
    ensures Collect(Frames(arrivals)) == Collect(Frames(arrivals[..i]))
    decreases |arrivals| - i
  {
    if i < |arrivals| {
      FramesStep(arrivals, i);
      if arrivals[i].Got? {
        CollectSnoc(Frames(arrivals[..i]), arrivals[i].f);
      } else {
        assert Frames(arrivals[..i]) + [] == Frames(arrivals[..i]);
      }
      CollectStays(arrivals, i + 1);
    } else {
      assert arrivals[..i] == arrivals;
    }
  }

  /* ---- The two sides together ---- */

  lemma RedactEmpty()
    ensures RedactChain.Redact([]) == []
  {
    hide Utf8.Decode, Utf8.Encode, Redaction.Chain;
    assert Utf8.Decode([]) == [] && Utf8.Encode([]) == [] by { NothingDecodes(); }
    RedactedEmpty(RedactChain.REDACTORS);
  }

  lemma NothingDecodes()
    ensures Utf8.Decode([]) == [] && Utf8.Encode([]) == []
  {
  }

  lemma {:induction false} RedactedEmpty(res: seq<Patterns.Redactor>)
    ensures Redaction.Chain(res, []) == []
  {
    if res != [] {
      RedactedEmpty(res[1..]);
    }
  }

  lemma OutputDecodes(f: Frame, kind: Kind, b: Bytes)
    ensures DecodeOutput(OutputFrame(f, kind, b)) == RedactChain.Redact(b)
  {
    hide RedactChain.Redact, Base64.Decode;
    Base64.RoundTrip(RedactChain.Redact(b));
  }

  /** The operator's side of the relay redacts once more what it passes to the browser. */
  function ToBrowser(f: Frame): Frame {
    if f.output.None? || f.output.value == [] then f
    else match Base64.Decode(f.output.value)
      case Some(raw) => f.(output := Some(Base64.Encode(RedactChain.Redact(raw))))
      case None => f
  }

  /** Even if an agent forgot to redact, nothing that decodes on its way to the browser holds
      one of the prefixed secrets. */
  lemma BrowserSeesRedacted(f: Frame)
    ensures DecodeOutput(ToBrowser(f)) == RedactChain.Redact(DecodeOutput(f))
    ensures ToBrowser(f) == f.(output := ToBrowser(f).output)
    ensures Secrets.NoSecret(Utf8.Decode(DecodeOutput(ToBrowser(f))))
    ensures forall re :: re in RedactChain.PREFIXED ==> Redaction.Clean(re, Utf8.Decode(DecodeOutput(ToBrowser(f))))
  {
    hide RedactChain.Redact, Base64.Encode, Redaction.Clean, Utf8.Decode, Secrets.NoSecret;
    RedactEmpty();
    Secrets.RedactedHasNoSecret(DecodeOutput(f));
    RedactChain.NothingPrefixedIsLeft(DecodeOutput(f));
    Base64.RoundTrip(RedactChain.Redact(DecodeOutput(f)));
    Base64.RoundTrip([]);
  }

  /** Collecting everything one exec sends gives the redaction of the first bytes of each
      stream, up to the limit it asked for (1 MiB if it asked for none), its exit code and the
      truncation mark; a refused start gives exit code -1 and no output. */
  lemma CollectsExec(f: Frame, oc: Outcome)
    requires f.exec.Some?
    ensures var cap := if f.exec.value.outputCap > 0 then f.exec.value.outputCap else 1_048_576;
            Collect(ExecFrames(f, oc)).res == Some(
              match oc
              case Ran(out, err, code) =>
                ExecRes(code, RedactChain.Redact(Take(Flatten(out), cap)), RedactChain.Redact(Take(Flatten(err), cap)),
                        Truncates(cap, out) || Truncates(cap, err))
              case _ => ExecRes(-1, [], [], false))
  {
    hide RedactChain.Redact, Base64.Encode, DecodeOutput, Overflows, WriteAll, Take, Flatten;
    match oc
    case Ran(out, err, code) =>
      var o, e := WriteAll(CapOf(f), out), WriteAll(CapOf(f), err);
      HoldsFirstBytes(CapOf(f), out);
      HoldsFirstBytes(CapOf(f), err);
      CollectsTail(f, o, e, code);
    case _ =>
      assert ExecFrames(f, oc)[..0] == [];
  }

  lemma CollectsTail(f: Frame, o: Cap, e: Cap, code: int)
    ensures Collect([AckFrame(f)] + Tail(f, o, e, code)).res
            == Some(ExecRes(code, RedactChain.Redact(o.buf), RedactChain.Redact(e.buf), o.full || e.full))
  {
    hide RedactChain.Redact, Base64.Encode, DecodeOutput, Collect;
    var s0 := [AckFrame(f)];
    CollectFirst(AckFrame(f));
    var s1 := s0 + (if o.buf != [] then [OutputFrame(f, Stdout, o.buf)] else []);
    CollectOutput(f, s0, Stdout, o.buf);
    var s2 := s1 + (if e.buf != [] then [OutputFrame(f, Stderr, e.buf)] else []);
    CollectOutput(f, s1, Stderr, e.buf);
    CollectSnoc(s2, ExitFrame(f, code, o.full || e.full));
    assert [] + RedactChain.Redact(o.buf) == RedactChain.Redact(o.buf);
    assert [] + RedactChain.Redact(e.buf) == RedactChain.Redact(e.buf);
    assert [AckFrame(f)] + Tail(f, o, e, code) == s2 + [ExitFrame(f, code, o.full || e.full)];
  }

  /** A non-empty buffer adds its redaction to its stream; an empty one sends nothing, which
      adds the same. */
  lemma CollectOutput(f: Frame, fs: seq<Frame>, kind: Kind, b: Bytes)
    requires kind.Stdout? || kind.Stderr?
    requires Collect(fs).res.None?
    ensures var c, r := Collect(fs), RedactChain.Redact(b);
            Collect(fs + (if b != [] then [OutputFrame(f, kind, b)] else []))
            == if kind.Stdout? then c.(out := c.out + r) else c.(err := c.err + r)
  {
    hide RedactChain.Redact, Base64.Encode, DecodeOutput, Collect;
    if b == [] {
      RedactEmpty();
      assert fs + [] == fs;
    } else {
      OutputDecodes(f, kind, b);
      CollectSnoc(fs, OutputFrame(f, kind, b));
    }
  }

  lemma CollectFirst(f: Frame)
    ensures Collect([f]) == CollectOne(NOTHING, f)
  {
    assert [f][..0] == [];
  }

  /* ---- The shape of a trace ---- */

  /** `exit`, or `ack stdout? stderr? exit`; all with the ids of the request. */
  ghost predicate Grammar(f: Frame, tr: seq<Frame>) {
    && (forall i :: 0 <= i < |tr| ==> tr[i].sid == f.sid && tr[i].eid == f.eid)
    && 1 <= |tr| <= 4 && tr[|tr| - 1].kind == Exit
    && (|tr| > 1 ==> tr[0].kind == ExecAck)
    && (|tr| == 3 ==> tr[1].kind in {Stdout, Stderr})
    && (|tr| == 4 ==> tr[1].kind == Stdout && tr[2].kind == Stderr)
  }

  lemma ExecFramesGrammar(f: Frame, oc: Outcome)
    requires f.exec.Some?
    ensures Grammar(f, ExecFrames(f, oc))
    ensures forall i :: 0 <= i < |ExecFrames(f, oc)| - 1 ==> ExecFrames(f, oc)[i].kind != Exit
  {
    hide RedactChain.Redact, Base64.Encode, WriteAll;
  }
}
