/** The device authorization flow of cmd/agent/enroll.go: polling with back-off (section 3.5
    of RFC 8628), and what a completed enrolment leaves on disk. Times are in nanoseconds. */
module Enroll {
  import opened Prelude
  import opened Text
  import opened EnvFile
  import opened EnvRoundTrip
  import opened EnvReadBack
  import EnvRemove

  const SLOW_DOWN := 5 * SECOND

  datatype CodeResponse = CodeResponse(interval: int, expiresIn: int)

  function PollInterval(code: CodeResponse): int {
    if code.interval > 0 then code.interval * SECOND else 5 * SECOND
  }

  function Lifetime(code: CodeResponse): int {
    if code.expiresIn > 0 then code.expiresIn * SECOND else 600 * SECOND
  }

  /** What the token endpoint did with one poll. */
  datatype Answer =
    | Network
    | Ok(body: Option<string>) // 200: the install token, or a body that does not decode
    | OAuth(error: string)     // any other status: the error code, "" if undecodable

  /** The environment's part in one turn of the loop: how long until the loop head looks at
      the clock, whether the context is done, how late the timer fires, how long the request
      takes, and its answer. */
  datatype Round = Round(gap: nat, cancelled: bool, late: nat, request: nat, answer: Answer)

  datatype Result = Token(token: string) | Refused | Cancelled | BadReply | Failed(code: string)

  datatype Poll = Poll(sent: int, answered: int, interval: int, slowDown: bool)
  datatype PollRun = PollRun(result: Result, polls: seq<Poll>)

  /** How the loop reacts to an answer: stop with a result, or go round again. */
  function React(a: Answer): Option<Result> {
    match a
    case Network => None
    case Ok(None) => Some(BadReply)
    case Ok(Some(t)) => Some(if t == "" then BadReply else Token(t))
    case OAuth(e) =>
      if e == "authorization_pending" || e == "slow_down" then None
      else if e == "access_denied" || e == "expired_token" then Some(Refused)
      else Some(Failed(e))
  }

  predicate SlowDown(a: Answer) { a == OAuth("slow_down") }

  /** The polling loop from its i-th turn on. */
  function PollFrom(i: nat, now: int, deadline: int, interval: int, env: nat -> Round): PollRun
    requires interval > 0
    decreases deadline - now + 1
  {
    var r := env(i);
    var t := now + r.gap;
    if t > deadline then PollRun(Refused, [])
    else if r.cancelled then PollRun(Cancelled, [])
    else
      var sent := t + interval + r.late;
      var poll := Poll(sent, sent + r.request, interval, SlowDown(r.answer));
      match React(r.answer)
      case Some(res) => PollRun(res, [poll])
      case None =>
        var rest := PollFrom(i + 1, poll.answered, deadline,
                             if poll.slowDown then interval + SLOW_DOWN else interval, env);
        PollRun(rest.result, [poll] + rest.polls)
  }

  function After(polls: seq<Poll>, rest: PollRun): PollRun { PollRun(rest.result, polls + rest.polls) }

  lemma AfterStep(polls: seq<Poll>, poll: Poll, rest: PollRun)
    ensures After(polls, After([poll], rest)) == After(polls + [poll], rest)
    ensures After(polls, PollRun(rest.result, [])) == PollRun(rest.result, polls)
  {
    assert polls + ([poll] + rest.polls) == (polls + [poll]) + rest.polls;
    assert polls + [] == polls;
  }

  /* ---- How the loop ends, told by the answers and the clock alone ---- */

  /** The interval in force at turn m: the code's own (5 s if it names none), and 5 s more for
      each slow_down so far. */
  function IntervalAt(code: CodeResponse, env: nat -> Round, m: nat): int {
    if m == 0 then (if code.interval > 0 then code.interval * SECOND else 5 * SECOND)
    else IntervalAt(code, env, m - 1) + (if env(m - 1).answer == OAuth("slow_down") then 5 * SECOND else 0)
  }

  /** When the loop head looks at the clock in turn m. */
  function HeadAt(code: CodeResponse, start: int, env: nat -> Round, m: nat): int {
    env(m).gap + if m == 0 then start
                 else HeadAt(code, start, env, m - 1) + IntervalAt(code, env, m - 1)
                      + env(m - 1).late + env(m - 1).request
  }

  /** The code has not lapsed at the loop head of turn m. */
  predicate InTime(code: CodeResponse, start: int, env: nat -> Round, m: nat) {
    HeadAt(code, start, env, m) <= start + if code.expiresIn > 0 then code.expiresIn * SECOND else 600 * SECOND
  }

  /** Turn j sent its request and was answered: approval is pending, the server asks for more
      time, or there was a network failure. */
  predicate Waits(code: CodeResponse, start: int, env: nat -> Round, j: nat) {
    && InTime(code, start, env, j) && !env(j).cancelled
    && env(j).answer in {Network, OAuth("authorization_pending"), OAuth("slow_down")}
  }

  /** Turn m ends the loop, and with this result. */
  predicate EndsAs(code: CodeResponse, start: int, env: nat -> Round, m: nat, res: Result) {
    if !InTime(code, start, env, m) then res == Refused
    else if env(m).cancelled then res == Cancelled
    else match env(m).answer
      case Network => false
      case Ok(None) => res == BadReply
      case Ok(Some(token)) => res == if token == "" then BadReply else Token(token)
      case OAuth(e) =>
        && e != "authorization_pending" && e != "slow_down"
        && res == if e in {"access_denied", "expired_token"} then Refused else Failed(e)
  }

  ghost predicate EndsAfter(code: CodeResponse, start: int, env: nat -> Round, m: nat, res: Result) {
    EndsAs(code, start, env, m, res) && forall j :: 0 <= j < m ==> Waits(code, start, env, j)
  }

  /** Polling with this code ends with this result. */
  ghost predicate PollEnds(code: CodeResponse, start: int, env: nat -> Round, res: Result) {
    exists m: nat :: EndsAfter(code, start, env, m, res)
  }

  lemma OneOutcome(code: CodeResponse, start: int, env: nat -> Round, m: nat, n: nat, r: Result, q: Result)
    requires EndsAfter(code, start, env, m, r) && EndsAfter(code, start, env, n, q)
    ensures m == n && r == q
  {
    hide InTime, EndsAs, Waits;
    EndIsNoWait(code, start, env, m, r);
    EndIsNoWait(code, start, env, n, q);
    assert m == n;
    OneResult(code, start, env, m, r, q);
  }

  lemma EndIsNoWait(code: CodeResponse, start: int, env: nat -> Round, m: nat, r: Result)
    requires EndsAs(code, start, env, m, r)
    ensures !Waits(code, start, env, m)
  {
  }

  lemma OneResult(code: CodeResponse, start: int, env: nat -> Round, m: nat, r: Result, q: Result)
    requires EndsAs(code, start, env, m, r) && EndsAs(code, start, env, m, q)
    ensures r == q
  {
  }

  /** The loop that has waited m times goes on as the answers say. */
  lemma {:induction false} EndsFrom(code: CodeResponse, start: int, env: nat -> Round, m: nat, now: int)
    requires forall j :: 0 <= j < m ==> Waits(code, start, env, j)
    requires HeadAt(code, start, env, m) == now + env(m).gap
    requires IntervalAt(code, env, m) > 0
    ensures var run := PollFrom(m, now, start + Lifetime(code), IntervalAt(code, env, m), env);
            PollEnds(code, start, env, run.result)
    decreases start + Lifetime(code) - now + 1
  {
    hide PollFrom, HeadAt, IntervalAt;
    var deadline, interval := start + Lifetime(code), IntervalAt(code, env, m);
    var run := PollFrom(m, now, deadline, interval, env);
    OneTurn([], m, now, deadline, interval, env);
    NothingBefore(run);
    if Waits(code, start, env, m) {
      var poll := PollAt(now, interval, env(m));
      NextTurn(code, start, env, m, now);
      EndsFrom(code, start, env, m + 1, poll.answered);
    } else {
      assert EndsAfter(code, start, env, m, run.result);
    }
  }

  lemma NextTurn(code: CodeResponse, start: int, env: nat -> Round, m: nat, now: int)
    requires HeadAt(code, start, env, m) == now + env(m).gap
    ensures HeadAt(code, start, env, m + 1) == PollAt(now, IntervalAt(code, env, m), env(m)).answered + env(m + 1).gap
    ensures IntervalAt(code, env, m + 1) == IntervalAt(code, env, m) + if SlowDown(env(m).answer) then SLOW_DOWN else 0
  {
  }

  /** Polling ends, whatever the answers, and in exactly one way. */
  lemma PollOutcome(code: CodeResponse, start: int, env: nat -> Round, res: Result)
    ensures PollFrom(0, start, start + Lifetime(code), PollInterval(code), env).result == res
            <==> PollEnds(code, start, env, res)
  {
    hide PollFrom, EndsAfter, Lifetime;
    assert IntervalAt(code, env, 0) == PollInterval(code);
    EndsFrom(code, start, env, 0, start);
    var run := PollFrom(0, start, start + Lifetime(code), PollInterval(code), env);
    var m: nat :| EndsAfter(code, start, env, m, run.result);
    if n: nat :| EndsAfter(code, start, env, n, res) {
      OneOutcome(code, start, env, m, n, run.result, res);
    }
  }

  function PollAt(now: int, interval: int, r: Round): Poll {
    var sent := now + r.gap + interval + r.late;
    Poll(sent, sent + r.request, interval, SlowDown(r.answer))
  }

  /** What one turn of the loop does to a run whose polls so far are these. */
  lemma OneTurn(polls: seq<Poll>, i: nat, now: int, deadline: int, interval: int, env: nat -> Round)
    requires interval > 0
    ensures var whole, r := After(polls, PollFrom(i, now, deadline, interval, env)), env(i);
            var poll := PollAt(now, interval, r);
            if now + r.gap > deadline then whole == PollRun(Refused, polls)
            else if r.cancelled then whole == PollRun(Cancelled, polls)
            else if React(r.answer).Some? then whole == PollRun(React(r.answer).value, polls + [poll])
            else
              var slower := if poll.slowDown then interval + SLOW_DOWN else interval;
              whole == After(polls + [poll], PollFrom(i + 1, poll.answered, deadline, slower, env))
  {
    hide React;
    var poll := PollAt(now, interval, env(i));
    var slower := if poll.slowDown then interval + SLOW_DOWN else interval;
    assert polls + [] == polls;
    AfterStep(polls, poll, PollFrom(i + 1, poll.answered, deadline, slower, env));
  }

  /** The loop terminates: each turn moves the clock by at least the interval, whatever the
      answers are. */
  method PollForInstallToken(start: int, code: CodeResponse, env: nat -> Round)
    returns (result: Result, now: int, ghost polls: seq<Poll>)
    ensures PollEnds(code, start, env, result)
    ensures PollRun(result, polls) == PollFrom(0, start, start + Lifetime(code), PollInterval(code), env)
    ensures now >= start
  {
    hide React, PollFrom, After, PollEnds;
    PollOutcome(code, start, env, PollFrom(0, start, start + Lifetime(code), PollInterval(code), env).result);
    now := start;
    var deadline := start + Lifetime(code);
    var interval := PollInterval(code);
    var i: nat := 0;
    polls := [];
    ghost var whole := PollFrom(0, start, deadline, interval, env);
    NothingBefore(whole);
    while true
      invariant interval > 0 && now >= start
      invariant whole == After(polls, PollFrom(i, now, deadline, interval, env))
      decreases deadline - now
    {
      OneTurn(polls, i, now, deadline, interval, env);
      var r := env(i);
      var t := now + r.gap;
      ghost var poll := PollAt(now, interval, r);
      if t > deadline {
        return Refused, t, polls;
      }
      if r.cancelled {
        return Cancelled, t, polls;
      }
      now := t + interval + r.late + r.request;
      polls := polls + [poll];
      var reaction := React(r.answer);
      if reaction.Some? {
        return reaction.value, now, polls;
      }
      if SlowDown(r.answer) {
        interval := interval + SLOW_DOWN;
      }
      i := i + 1;
    }
  }

  lemma NothingBefore(rest: PollRun)
    ensures After([], rest) == rest
  {
  }

  /* ---- What every run of the loop satisfies ---- */

  function SlowDowns(polls: seq<Poll>): nat {
    if polls == [] then 0 else SlowDowns(polls[..|polls| - 1]) + (if polls[|polls| - 1].slowDown then 1 else 0)
  }

  /** Time from which the wait before poll j is counted. */
  function Since(polls: seq<Poll>, j: nat, start: int): int
    requires j < |polls|
  {
    if j == 0 then start else polls[j - 1].answered
  }

  /** Poll j used the starting interval plus 5 s for each earlier slow_down, was sent no
      sooner than that after the previous answer, and only if that answer came in time. */
  ghost predicate PacedAt(polls: seq<Poll>, j: nat, start: int, deadline: int, first: int)
    requires j < |polls|
  {
    && polls[j].interval == first + SLOW_DOWN * SlowDowns(polls[..j])
    && Since(polls, j, start) + polls[j].interval <= polls[j].sent <= polls[j].answered
    && Since(polls, j, start) <= deadline
  }

  ghost predicate Paced(polls: seq<Poll>, start: int, deadline: int, first: int) {
    forall j :: 0 <= j < |polls| ==> PacedAt(polls, j, start, deadline, first)
  }

  lemma {:induction false} RunIsPaced(i: nat, now: int, deadline: int, interval: int, env: nat -> Round)
    requires interval > 0
    ensures Paced(PollFrom(i, now, deadline, interval, env).polls, now, deadline, interval)
    decreases deadline - now + 1
  {
    var r := env(i);
    var polls := PollFrom(i, now, deadline, interval, env).polls;
    if polls != [] {
      assert polls[..0] == [];
      assert PacedAt(polls, 0, now, deadline, interval);
      if React(r.answer) == None {
        var poll := polls[0];
        var next := if poll.slowDown then interval + SLOW_DOWN else interval;
        RunIsPaced(i + 1, poll.answered, deadline, next, env);
        PacedCons(poll, polls[1..], now, deadline, interval, next);
        assert polls == [poll] + polls[1..];
      }
    }
  }

  lemma {:induction false} SlowDownsCons(poll: Poll, rest: seq<Poll>)
    ensures SlowDowns([poll] + rest) == (if poll.slowDown then 1 else 0) + SlowDowns(rest)
  {
    var all := [poll] + rest;
    if rest == [] {
      assert all[..0] == [];
    } else {
      assert all[..|all| - 1] == [poll] + rest[..|rest| - 1];
      SlowDownsCons(poll, rest[..|rest| - 1]);
    }
  }

  lemma PacedCons(poll: Poll, rest: seq<Poll>, start: int, deadline: int, first: int, next: int)
    requires PacedAt([poll] + rest, 0, start, deadline, first)
    requires next == if poll.slowDown then first + SLOW_DOWN else first
    requires Paced(rest, poll.answered, deadline, next)
    ensures Paced([poll] + rest, start, deadline, first)
  {
    var all := [poll] + rest;
    forall j | 0 < j < |all|
      ensures PacedAt(all, j, start, deadline, first)
    {
      assert PacedAt(rest, j - 1, poll.answered, deadline, next);
      assert all[..j] == [poll] + rest[..j - 1];
      SlowDownsCons(poll, rest[..j - 1]);
    }
  }

  /** 0 + 1 + ... + (k - 1). */
  function Triangle(k: nat): nat { if k == 0 then 0 else Triangle(k - 1) + k - 1 }

  lemma {:induction false} TriangleFormula(k: nat)
    ensures 2 * Triangle(k) == k * (k - 1)
  {
    if k > 0 {
      TriangleFormula(k - 1);
    }
  }

  /** Time taken by the first m polls. */
  lemma {:induction false} Elapsed(polls: seq<Poll>, m: nat, start: int, deadline: int, first: int)
    requires Paced(polls, start, deadline, first) && m <= |polls|
    ensures (if m == 0 then start else polls[m - 1].answered) - start
            >= m * first + SLOW_DOWN * Triangle(SlowDowns(polls[..m]))
  {
    hide Triangle, SlowDowns;
    if m == 0 {
      NoSlowDowns(polls);
    } else {
      assert PacedAt(polls, m - 1, start, deadline, first);
      Elapsed(polls, m - 1, start, deadline, first);
      SlowDownsStep(polls, m);
      assert m * first == (m - 1) * first + first;
    }
  }

  lemma NoSlowDowns(polls: seq<Poll>)
    ensures SlowDowns(polls[..0]) == 0 && Triangle(0) == 0
  {
  }

  lemma SlowDownsStep(polls: seq<Poll>, m: nat)
    requires 0 < m <= |polls|
    ensures var j, k := SlowDowns(polls[..m - 1]), SlowDowns(polls[..m]);
            j <= k <= j + 1 && Triangle(k) <= Triangle(j) + j
  {
    assert polls[..m][..m - 1] == polls[..m - 1];
  }

  /** The quadratic bound, for any paced polls: with starting interval I and lifetime L,
      n polls of which k were told to slow down satisfy (n - 1) I <= L and, for k >= 1,
      (n - 1) I + 5 s (k - 1)(k - 2) / 2 <= L. */
  ghost predicate Bounded(polls: seq<Poll>, first: int, life: int) {
    var n, k := |polls|, SlowDowns(polls);
    && (n >= 1 ==> (n - 1) * first <= life)
    && (k >= 1 ==> 2 * ((n - 1) * first) + SLOW_DOWN * ((k - 1) * (k - 2)) <= 2 * life)
  }

  lemma PacedIsBounded(polls: seq<Poll>, start: int, life: int, first: int)
    requires Paced(polls, start, start + life, first)
    ensures Bounded(polls, first, life)
  {
    hide Triangle, SlowDowns;
    var n := |polls|;
    if n == 0 {
      NoSlowDowns(polls);
      assert polls[..0] == polls;
    } else {
      var j, k := SlowDowns(polls[..n - 1]), SlowDowns(polls);
      Elapsed(polls, n - 1, start, start + life, first);
      assert PacedAt(polls, n - 1, start, start + life, first);
      assert polls[..n] == polls;
      SlowDownsStep(polls, n);
      TriangleFormula(j);
      if k >= 1 {
        TriangleFormula(k - 1);
        TriangleMonotone(k - 1, j);
      }
    }
  }

  /** It holds of every run of the loop. */
  lemma PollBound(start: int, code: CodeResponse, env: nat -> Round)
    ensures var polls := PollFrom(0, start, start + Lifetime(code), PollInterval(code), env).polls;
            Paced(polls, start, start + Lifetime(code), PollInterval(code))
            && Bounded(polls, PollInterval(code), Lifetime(code))
  {
    hide PollFrom, Bounded;
    RunIsPaced(0, start, start + Lifetime(code), PollInterval(code), env);
    PacedIsBounded(PollFrom(0, start, start + Lifetime(code), PollInterval(code), env).polls,
                   start, Lifetime(code), PollInterval(code));
  }

  lemma {:induction false} TriangleMonotone(a: nat, b: nat)
    requires a <= b
    ensures Triangle(a) <= Triangle(b)
  {
    if a < b {
      TriangleMonotone(a, b - 1);
    }
  }

  /* ---- What a completed enrolment leaves on disk ---- */

  datatype RelayData = RelayData(success: bool, relayURL: string, deviceID: string, orgID: string,
                                 apiBase: string, enrollmentToken: string)

  /** fetchRelayEnrollment accepts only a reply with a device and a relay URL. */
  predicate Complete(d: RelayData) { d.success && d.deviceID != "" && d.relayURL != "" }

  predicate IsEnrolled(env: Env) {
    Lookup(env, "HASFY_DEVICE_ID") != "" && Lookup(env, "HASFY_ORG_ID") != "" && Lookup(env, "HASFY_RELAY_URL") != ""
  }

  function EnrolledValues(apiBase: string, d: RelayData): Env {
    map["HASFY_API_URL" := if d.apiBase != "" then d.apiBase else apiBase,
        "HASFY_RELAY_URL" := d.relayURL,
        "HASFY_DEVICE_ID" := d.deviceID,
        "HASFY_ORG_ID" := d.orgID,
        "HASFY_DEVICE_ENROLLMENT_TOKEN" := d.enrollmentToken]
  }

  /** The environment's part in one turn of runSelfEnrollment: the code the server issued, when
      polling starts and how each round of it goes, the relay data the token was exchanged
      for, and whether the file could be written. */
  datatype Attempt = Attempt(cancelled: bool, code: Option<CodeResponse>, start: int, rounds: nat -> Round,
                             relay: Option<RelayData>, diskOk: bool)
  datatype Outcome = Enrolled(values: Env, file: string) | Stopped | StillTrying

  /** Polling with the code of this turn ends with this result. */
  ghost predicate Polled(a: Attempt, res: Result) {
    a.code.Some? && PollEnds(a.code.value, a.start, a.rounds, res)
  }

  /** The turn asks for a fresh code next: none could be had, or it lapsed or was refused. */
  ghost predicate Retries(a: Attempt) { !a.cancelled && (a.code.None? || Polled(a, Refused)) }

  /** The turn enrols the device with this data. */
  ghost predicate Succeeds(a: Attempt, d: RelayData) {
    && !a.cancelled && (exists token: string :: Polled(a, Token(token))) && a.relay == Some(d)
    && d.success && d.deviceID != "" && d.relayURL != "" && a.diskOk
  }

  /** The first turn after which no fresh code is asked for. */
  ghost predicate Decides(attempts: seq<Attempt>, i: int) {
    0 <= i < |attempts| && !Retries(attempts[i]) && forall j :: 0 <= j < i ==> Retries(attempts[j])
  }

  /** What agent.env is to hold: what the server sent, and the API base it was reached under if it
      sent no other. */
  predicate ValuesOf(values: Env, apiBase: string, d: RelayData) {
    && values.Keys == {"HASFY_API_URL", "HASFY_RELAY_URL", "HASFY_DEVICE_ID", "HASFY_ORG_ID",
                       "HASFY_DEVICE_ENROLLMENT_TOKEN"}
    && values["HASFY_RELAY_URL"] == d.relayURL && values["HASFY_DEVICE_ID"] == d.deviceID
    && values["HASFY_ORG_ID"] == d.orgID && values["HASFY_DEVICE_ENROLLMENT_TOKEN"] == d.enrollmentToken
    && (d.apiBase != "" ==> values["HASFY_API_URL"] == d.apiBase)
    && (d.apiBase == "" ==> values["HASFY_API_URL"] == apiBase)
  }

  lemma OnlyOneEnd(a: Attempt, r: Result, q: Result)
    requires Polled(a, r) && Polled(a, q)
    ensures r == q
  {
    hide EndsAfter;
    var m: nat :| EndsAfter(a.code.value, a.start, a.rounds, m, r);
    var n: nat :| EndsAfter(a.code.value, a.start, a.rounds, n, q);
    OneOutcome(a.code.value, a.start, a.rounds, m, n, r, q);
  }

  /** How polling ended settles the turn. */
  lemma TurnSettled(a: Attempt, poll: Result)
    requires !a.cancelled && Polled(a, poll)
    ensures Retries(a) <==> poll.Refused?
    ensures (exists token: string :: Polled(a, Token(token))) <==> poll.Token?
  {
    hide PollEnds;
    if Polled(a, Refused) {
      OnlyOneEnd(a, poll, Refused);
    }
    if token: string :| Polled(a, Token(token)) {
      OnlyOneEnd(a, poll, Token(token));
    }
    assert poll.Token? ==> Polled(a, Token(poll.token));
  }

  /** Retries with a fresh code after a refusal or a failed start, until a turn decides. The
      file it leaves is the printed form of the values it returns, which are those of that
      turn. */
  method RunSelfEnrollment(apiBase: string, attempts: seq<Attempt>, it: seq<string>) returns (out: Outcome)
    requires forall d: RelayData :: Iterates(it, EnrolledValues(apiBase, d))
    ensures out.StillTrying? <==> forall i :: 0 <= i < |attempts| ==> Retries(attempts[i])
    ensures out.Stopped? ==> exists i :: Decides(attempts, i) && forall d :: !Succeeds(attempts[i], d)
    ensures out.Enrolled? ==>
              && (exists i, d :: Decides(attempts, i) && Succeeds(attempts[i], d) && ValuesOf(out.values, apiBase, d))
              && Iterates(it, out.values) && out.file == Print(out.values, it)
  {
    hide PollFrom, Iterates, Polled, PollEnds, ValuesOf;
    for i := 0 to |attempts|
      invariant forall j :: 0 <= j < i ==> Retries(attempts[j])
    {
      var a := attempts[i];
      if a.cancelled {
        assert Decides(attempts, i);
        return Stopped;
      }
      if a.code.None? {
        continue;
      }
      var poll, _, _ := PollForInstallToken(a.start, a.code.value, a.rounds);
      assert Polled(a, poll) by { JustPolled(a, poll); }
      TurnSettled(a, poll);
      if poll.Refused? {
        continue;
      }
      assert Decides(attempts, i);
      if !poll.Token? || a.relay.None? || !Complete(a.relay.value) || !a.diskOk {
        return Stopped;
      }
      var values := EnrolledValues(apiBase, a.relay.value);
      ValuesAre(apiBase, a.relay.value);
      assert Succeeds(a, a.relay.value) && ValuesOf(values, apiBase, a.relay.value);
      var file := WriteEnvFile(values, it);
      return Enrolled(values, file);
    }
    out := StillTrying;
  }

  lemma JustPolled(a: Attempt, res: Result)
    requires a.code.Some? && PollEnds(a.code.value, a.start, a.rounds, res)
    ensures Polled(a, res)
  {
  }

  lemma ValuesAre(apiBase: string, d: RelayData)
    ensures ValuesOf(EnrolledValues(apiBase, d), apiBase, d)
  {
  }

  /** The file can be read to its end and shows an enrolled device. */
  predicate ReadsAsEnrolled(content: string) { !Load(content).tooLong && IsEnrolled(Load(content).env) }

  lemma KnownKeysOk()
    ensures forall k :: k in ORDER ==> KeyOk(k) && OneLine(k)
  {
  }

  lemma ValuesSound(apiBase: string, d: RelayData)
    ensures Sound(EnrolledValues(apiBase, d))
  {
    KnownKeysOk();
  }

  const NEEDED := {"HASFY_DEVICE_ID", "HASFY_ORG_ID", "HASFY_RELAY_URL"}

  /** The printed bindings leave the key with a value that is not blank. */
  predicate LeftBound(values: Env, it: seq<string>, key: string) {
    Bound(values, PrintedKeys(values, it), key) !in {None, Some("")}
  }

  /** On the next boot the file shows an enrolled device exactly when every line fits the scanner
      and device id, organisation id and relay URL are each left bound to a value that is not
      blank. When no value holds a newline that is a matter of the three values alone: what is
      left of each, once trimmed and unquoted, must not be empty. In particular an organisation
      id must have been sent; without one the agent enrols again. */
  lemma EnrolledReadsBackIff(apiBase: string, d: RelayData, it: seq<string>)
    requires Iterates(it, EnrolledValues(apiBase, d))
    ensures var values := EnrolledValues(apiBase, d);
            ReadsAsEnrolled(Print(values, it))
            <==> AllLinesFit(values) && forall key :: key in NEEDED ==> LeftBound(values, it, key)
    ensures var values := EnrolledValues(apiBase, d);
            (forall k :: Written(values, k) ==> OneLine(values[k])) ==>
              (ReadsAsEnrolled(Print(values, it))
               <==> AllLinesFit(values)
                    && ReadBack(d.deviceID) != "" && ReadBack(d.orgID) != "" && ReadBack(d.relayURL) != "")
  {
    hide Load, Print, Iterates, AllLinesFit, EnrolledValues, Sound, PrintedKeys, OneLine, ReadBack, Bound;
    var values := EnrolledValues(apiBase, d);
    ValuesSound(apiBase, d);
    LoadOfPrinted(values, it);
    assert ReadsAsEnrolled(Print(values, it))
           <==> AllLinesFit(values) && forall key :: key in NEEDED ==> LeftBound(values, it, key) by {
      if !Load(Print(values, it)).tooLong {
        EnrolledByKey(values, it, Load(Print(values, it)).env);
      }
    }
    if forall k :: Written(values, k) ==> OneLine(values[k]) {
      OneLineBound(values, it, "HASFY_DEVICE_ID", d.deviceID) by { TheValues(apiBase, d); }
      OneLineBound(values, it, "HASFY_ORG_ID", d.orgID) by { TheValues(apiBase, d); }
      OneLineBound(values, it, "HASFY_RELAY_URL", d.relayURL) by { TheValues(apiBase, d); }
    }
  }

  lemma TheValues(apiBase: string, d: RelayData)
    ensures var values := EnrolledValues(apiBase, d);
            && NEEDED <= values.Keys && values["HASFY_DEVICE_ID"] == d.deviceID
            && values["HASFY_ORG_ID"] == d.orgID && values["HASFY_RELAY_URL"] == d.relayURL
  {
  }

  lemma EnrolledByKey(values: Env, it: seq<string>, env: Env)
    requires forall key :: (key in env <==> Bound(values, PrintedKeys(values, it), key).Some?)
                           && (key in env ==> Bound(values, PrintedKeys(values, it), key) == Some(env[key]))
    ensures IsEnrolled(env) <==> forall key :: key in NEEDED ==> LeftBound(values, it, key)
  {
    hide Bound, PrintedKeys, Iterates;
    forall key
      ensures LeftBound(values, it, key) <==> Lookup(env, key) != ""
    {
    }
    assert "HASFY_DEVICE_ID" in NEEDED && "HASFY_ORG_ID" in NEEDED && "HASFY_RELAY_URL" in NEEDED;
  }

  lemma OneLineBound(values: Env, it: seq<string>, key: string, v: string)
    requires Iterates(it, values) && key in values && values[key] == v
    requires forall k :: Written(values, k) ==> OneLine(values[k])
    ensures LeftBound(values, it, key) <==> ReadBack(v) != ""
  {
    hide ReadBack, Bound, PrintedKeys, Iterates, OneLine;
    PrintedKeysFacts(values, it);
    BoundToOwn(values, PrintedKeys(values, it), key);
    NothingLeftOfNothing();
  }

  lemma NothingLeftOfNothing()
    ensures ReadBack("") == ""
  {
  }

  /** All five values come back: when none holds a newline and the lines fit, each key is read as
      what the server sent for it, trimmed and unquoted, the API base as the configured one when
      the server sent none. */
  lemma ReadsBackWhatWasSent(apiBase: string, d: RelayData, it: seq<string>)
    requires Iterates(it, EnrolledValues(apiBase, d)) && AllLinesFit(EnrolledValues(apiBase, d))
    requires forall k :: Written(EnrolledValues(apiBase, d), k) ==> OneLine(EnrolledValues(apiBase, d)[k])
    ensures var env := Load(Print(EnrolledValues(apiBase, d), it)).env;
            && (d.apiBase != "" ==> Lookup(env, "HASFY_API_URL") == ReadBack(d.apiBase))
            && (d.apiBase == "" ==> Lookup(env, "HASFY_API_URL") == ReadBack(apiBase))
            && Lookup(env, "HASFY_RELAY_URL") == ReadBack(d.relayURL)
            && Lookup(env, "HASFY_DEVICE_ID") == ReadBack(d.deviceID)
            && Lookup(env, "HASFY_ORG_ID") == ReadBack(d.orgID)
            && Lookup(env, "HASFY_DEVICE_ENROLLMENT_TOKEN") == ReadBack(d.enrollmentToken)
            && forall k :: k in env ==> k in EnrolledValues(apiBase, d)
  {
    hide Load, Print, Iterates, AllLinesFit, Sound, PrintedKeys, OneLine, ReadBack, Bound;
    var values := EnrolledValues(apiBase, d);
    ValuesSound(apiBase, d);
    LoadOfPrinted(values, it);
    PrintedKeysFacts(values, it);
    NothingLeftOfNothing();
    var env := Load(Print(values, it)).env;
    forall key
      ensures key in values ==> Lookup(env, key) == ReadBack(values[key])
      ensures key !in values ==> key !in env
    {
      BoundToOwn(values, PrintedKeys(values, it), key);
    }
  }

  /** With well-formed values that is: exactly when the server sent an organisation id. */
  lemma EnrolledReadsBack(apiBase: string, d: RelayData, it: seq<string>)
    requires Complete(d) && Iterates(it, EnrolledValues(apiBase, d))
    requires var values := EnrolledValues(apiBase, d);
             forall k :: Written(values, k) ==> WellFormed(k, values[k])
    ensures IsEnrolled(Load(Print(EnrolledValues(apiBase, d), it)).env) <==> d.orgID != ""
  {
    hide Load, Print, WellFormed;
    RoundTripIff(EnrolledValues(apiBase, d), it);
  }
}
