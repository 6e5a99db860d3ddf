/** cmd/agent/token.go: the store the reconnect loop waits on and the loop that keeps a relay
    token in it. */
module Token {
  import opened Prelude
  import opened EnvRemove

  /* ---- The store ---- */

  class TokenStore {
    var token: string
    var ready: bool // the channel is closed
    ghost var stored: seq<string>

    /** Holds after every statement, also between the two halves of Set: only non-empty
        tokens are stored, and `ready` is closed only once there is one. */
    ghost predicate Valid()
      reads this
    {
      && "" !in stored && (stored == [] ==> token == "")
      && (stored != [] ==> token == stored[|stored| - 1])
      && (ready ==> stored != [])
    }

    constructor ()
      ensures Valid() && stored == [] && !ready
    {
      token, ready, stored := "", false, [];
    }

    method Get() returns (t: string)
      requires Valid()
      ensures t == if stored == [] then "" else stored[|stored| - 1]
      ensures t != "" <==> stored != []
    {
      t := token;
      assert stored != [] ==> stored[|stored| - 1] in stored;
    }

    method Set(t: string)
      requires Valid() && t != ""
      modifies this
      ensures Valid() && ready && stored == old(stored) + [t]
    {
      token, stored := t, stored + [t];
      assert Valid();
      ready := true;
    }

    /** What the select does now: with both channels ready Go picks either. A released waiter
        finds a non-empty token, and so does every later Get. */
    method Wait(cancelled: bool, pickReady: bool) returns (w: Waited)
      requires Valid()
      ensures w.Released? ==> token != "" && stored != []
      ensures w.Blocked? <==> !ready && !cancelled
      ensures w.Released? ==> ready
      ensures w.Cancelled? ==> cancelled
      ensures ready && (!cancelled || pickReady) ==> w.Released?
    {
      assert stored != [] ==> stored[|stored| - 1] in stored;
      if ready && (!cancelled || pickReady) {
        return Released;
      }
      w := if cancelled then Cancelled else Blocked;
    }
  }

  datatype Waited = Released | Cancelled | Blocked

  /* ---- Acquiring ---- */

  datatype Reply =
    | NoReply                              // request failed or timed out
    | Status(code: int)
    | Undecodable
    | Body(success: bool, token: string, ttlSeconds: int)

  datatype Acquired = Granted(token: string, ttl: int) | DeviceRefused | Failed

  /** A successful reply with this token, for this many nanoseconds. */
  predicate Lasting(r: Reply, t: string, d: int) {
    r.Body? && r.success && r.token == t && d == r.ttlSeconds * 1_000_000_000
  }

  /** acquireToken: a token is granted exactly by a successful reply that carries one, with the
      lifetime it names; 401 is the one refusal. */
  function Acquire(r: Reply): (a: Acquired)
    ensures forall t, d :: a == Granted(t, d) <==> t != "" && Lasting(r, t, d)
    ensures a.DeviceRefused? <==> r == Status(401)
  {
    match r
    case Status(code) => if code == 401 then DeviceRefused else Failed
    case Body(success, token, ttl) => if !success || token == "" then Failed else Granted(token, ttl * SECOND)
    case _ => Failed
  }

  const RENEW_MIN := 5 * MINUTE
  const RENEW_MAX := 180 * MINUTE
  const RETRY := 2 * MINUTE
  const HTTP_TIMEOUT := 30 * SECOND

  /** Half the lifetime, kept between 5 minutes and 3 hours. */
  function RenewDelay(ttl: int): (d: int)
    ensures RENEW_MIN <= d <= RENEW_MAX
    ensures ttl <= 10 * MINUTE ==> d == 5 * MINUTE
    ensures 10 * MINUTE <= ttl <= 360 * MINUTE ==> 2 * d <= ttl <= 2 * d + 1
    ensures ttl >= 360 * MINUTE ==> d == 180 * MINUTE
  {
    var d := ttl / 2;
    if d < RENEW_MIN then RENEW_MIN else if d > RENEW_MAX then RENEW_MAX else d
  }

  /** The renewal is due by the time the token expires exactly for lifetimes of at least five
      minutes; a shorter one, or one the server left out, lapses first. */
  lemma RenewedInTimeIff(ttl: int)
    ensures RenewDelay(ttl) <= ttl <==> ttl >= RENEW_MIN
  {
  }

  /* ---- The manager ---- */

  /** The answer to the registration of the device key; 0 stands for none. */
  type KeyReply = int

  datatype Registration = NotNeeded | NoSecret | Registered | Rejected | RegistrationFailed

  /** First-boot registration: attempted only when this boot created the key and the
      environment file still carries the one-shot secret. */
  function Register(needed: bool, secret: string, reply: KeyReply): Registration {
    if !needed then NotNeeded
    else if secret == "" then NoSecret
    else if reply == 200 then Registered
    else if reply == 401 then Rejected
    else RegistrationFailed
  }

  const SECRET_KEY := "HASFY_DEVICE_ENROLLMENT_TOKEN"

  /** The environment's part in one turn: how late the timer fires, whether the context is
      done before or after the request, how long it takes, and the reply. */
  datatype Turn = Turn(late: nat, cancelled: bool, took: nat, reply: Reply, cancelledAfter: bool)

  datatype Request = Request(start: int, finish: int, result: Acquired)

  function NextIn(a: Acquired): int
    requires !a.DeviceRefused?
  {
    if a.Granted? then RenewDelay(a.ttl) else RETRY
  }

  /** The requests made by the loop whose timer is due at `due`. */
  function Requests(turns: seq<Turn>, due: int): seq<Request> {
    if turns == [] || turns[0].cancelled then []
    else
      var t := turns[0];
      var req := Request(due + t.late, due + t.late + t.took, Acquire(t.reply));
      if req.result.DeviceRefused? || (req.result.Failed? && t.cancelledAfter) then [req]
      else [req] + Requests(turns[1..], req.finish + NextIn(req.result))
  }

  function Tokens(reqs: seq<Request>): seq<string> {
    if reqs == [] then []
    else Tokens(reqs[..|reqs| - 1])
         + (if reqs[|reqs| - 1].result.Granted? then [reqs[|reqs| - 1].result.token] else [])
  }

  lemma {:induction false} TokensCons(r: Request, reqs: seq<Request>)
    ensures Tokens([r] + reqs) == (if r.result.Granted? then [r.result.token] else []) + Tokens(reqs)
  {
    var all := [r] + reqs;
    if reqs == [] {
      assert all[..0] == [];
    } else {
      assert all[..|all| - 1] == [r] + reqs[..|reqs| - 1];
      TokensCons(r, reqs[..|reqs| - 1]);
    }
  }

  /* ---- The same, told by the turns alone ---- */

  /** The reply carries a token. */
  predicate Grants(r: Reply) { r.Body? && r.success && r.token != "" }

  /** The loop makes its request of turn i: nothing stopped it before. */
  predicate Reached(turns: seq<Turn>, i: int) {
    && 0 <= i < |turns| && (forall j :: 0 <= j <= i ==> !turns[j].cancelled)
    && forall j :: 0 <= j < i ==> turns[j].reply != Status(401) && (Grants(turns[j].reply) || !turns[j].cancelledAfter)
  }

  /** When the timer of turn i is due: after a token half its lifetime later, kept between 5 and
      180 minutes; after a failure two minutes later. */
  function DueAt(turns: seq<Turn>, now: int, i: nat): int
    requires i <= |turns|
  {
    if i == 0 then now
    else
      var t := turns[i - 1];
      var half := if Grants(t.reply) then t.reply.ttlSeconds * 1_000_000_000 / 2 else 0;
      DueAt(turns, now, i - 1) + t.late + t.took
      + if !Grants(t.reply) then 2 * MINUTE
        else if half < 5 * MINUTE then 5 * MINUTE else if half > 180 * MINUTE then 180 * MINUTE else half
  }

  /** The tokens carried by the replies to the first n turns, those of turns that are reached. */
  function Given(turns: seq<Turn>, n: nat): seq<string>
    requires n <= |turns|
  {
    if n == 0 then []
    else Given(turns, n - 1)
         + (if Reached(turns, n - 1) && Grants(turns[n - 1].reply) then [turns[n - 1].reply.token] else [])
  }

  /** Request i is that of turn i. */
  ghost predicate MadeAt(turns: seq<Turn>, now: int, reqs: seq<Request>, i: nat) {
    && i < |reqs| <= |turns|
    && reqs[i] == Request(DueAt(turns, now, i) + turns[i].late, DueAt(turns, now, i) + turns[i].late + turns[i].took,
                          Acquire(turns[i].reply))
  }

  /** The requests are those of the turns reached. */
  ghost predicate Follows(turns: seq<Turn>, now: int, reqs: seq<Request>) {
    && |reqs| <= |turns| && (forall i :: 0 <= i < |turns| ==> (Reached(turns, i) <==> i < |reqs|))
    && (forall i :: 0 <= i < |reqs| ==> MadeAt(turns, now, reqs, i))
    && Tokens(reqs) == Given(turns, |turns|)
  }

  /** The loop goes on after its first turn. */
  predicate GoesOn(t: Turn) { !t.cancelled && t.reply != Status(401) && (Grants(t.reply) || !t.cancelledAfter) }

  lemma ReachedLater(turns: seq<Turn>, i: nat)
    requires turns != [] && i < |turns[1..]|
    ensures Reached(turns, i + 1) <==> GoesOn(turns[0]) && Reached(turns[1..], i)
  {
    var rest := turns[1..];
    assert forall j :: 0 <= j < |rest| ==> rest[j] == turns[j + 1];
    if GoesOn(turns[0]) && Reached(rest, i) {
      forall j | 0 <= j <= i + 1
        ensures !turns[j].cancelled
        ensures j < i + 1 ==> turns[j].reply != Status(401) && (Grants(turns[j].reply) || !turns[j].cancelledAfter)
      {
        assert j > 0 ==> turns[j] == rest[j - 1];
      }
    }
  }

  lemma {:induction false} DueLater(turns: seq<Turn>, now: int, i: nat)
    requires turns != [] && i <= |turns[1..]|
    ensures DueAt(turns, now, i + 1) == DueAt(turns[1..], DueAt(turns, now, 1), i)
  {
    if i > 0 {
      DueLater(turns, now, i - 1);
      assert turns[1..][i - 1] == turns[i];
    }
  }

  lemma {:induction false} GivenLater(turns: seq<Turn>, n: nat)
    requires turns != [] && n <= |turns[1..]|
    ensures Given(turns, n + 1) == Given(turns, 1) + (if GoesOn(turns[0]) then Given(turns[1..], n) else [])
  {
    hide Reached, GoesOn;
    if n > 0 {
      GivenLater(turns, n - 1);
      ReachedLater(turns, n - 1);
      assert turns[1..][n - 1] == turns[n];
    }
  }

  /** The first turn is what Requests makes of it. */
  lemma FirstTurn(turns: seq<Turn>, due: int)
    requires turns != []
    ensures var reqs, t := Requests(turns, due), turns[0];
            if t.cancelled then reqs == []
            else
              var req := Request(due + t.late, due + t.late + t.took, Acquire(t.reply));
              reqs == [req] + (if GoesOn(t) then Requests(turns[1..], DueAt(turns, due, 1)) else [])
    ensures Reached(turns, 0) <==> !turns[0].cancelled
    ensures Given(turns, 1) == if !turns[0].cancelled && Grants(turns[0].reply) then [turns[0].reply.token] else []
  {
    assert Given(turns, 0) == [] && DueAt(turns, due, 0) == due;
  }

  lemma {:induction false} RequestsFollow(turns: seq<Turn>, due: int)
    ensures Follows(turns, due, Requests(turns, due))
  {
    hide Requests, Reached, GoesOn, Acquire, DueAt, Given, MadeAt;
    if turns == [] {
      NoTurns(due);
    } else {
      FirstTurn(turns, due);
      var rest, next := turns[1..], DueAt(turns, due, 1);
      RequestsFollow(rest, next);
      FollowsFirst(turns, due, Requests(turns, due), Requests(rest, next));
    }
  }

  lemma NoTurns(due: int)
    ensures Follows([], due, Requests([], due))
  {
  }

  lemma FollowsFirst(turns: seq<Turn>, due: int, reqs: seq<Request>, rest: seq<Request>)
    requires turns != [] && Follows(turns[1..], DueAt(turns, due, 1), rest)
    requires var t := turns[0];
             if t.cancelled then reqs == []
             else
               var req := Request(due + t.late, due + t.late + t.took, Acquire(t.reply));
               reqs == [req] + (if GoesOn(t) then rest else [])
    ensures Follows(turns, due, reqs)
  {
    hide Reached, Acquire, DueAt, Given, MadeAt, Requests;
    FirstTurn(turns, due);
    assert |turns[1..]| == |turns| - 1;
    forall i | 0 <= i < |turns|
      ensures Reached(turns, i) <==> i < |reqs|
      ensures i < |reqs| ==> MadeAt(turns, due, reqs, i)
    {
      if i > 0 {
        ReachedLater(turns, i - 1);
        if i < |reqs| {
          MadeLater(turns, due, reqs, rest, i - 1);
        }
      } else if reqs != [] {
        MadeFirst(turns, due, reqs);
      }
    }
    GivenLater(turns, |turns| - 1);
    TokensFollow(turns, reqs, rest);
  }

  lemma MadeFirst(turns: seq<Turn>, due: int, reqs: seq<Request>)
    requires turns != [] && 0 < |reqs| <= |turns|
    requires reqs[0] == Request(due + turns[0].late, due + turns[0].late + turns[0].took, Acquire(turns[0].reply))
    ensures MadeAt(turns, due, reqs, 0)
  {
  }

  lemma MadeLater(turns: seq<Turn>, due: int, reqs: seq<Request>, rest: seq<Request>, i: nat)
    requires turns != [] && i < |rest| && |reqs| == |rest| + 1 && reqs[i + 1] == rest[i]
    requires MadeAt(turns[1..], DueAt(turns, due, 1), rest, i)
    ensures MadeAt(turns, due, reqs, i + 1)
  {
    hide DueAt, Acquire;
    DueLater(turns, due, i);
    assert turns[1..][i] == turns[i + 1];
  }

  lemma TokensFollow(turns: seq<Turn>, reqs: seq<Request>, rest: seq<Request>)
    requires turns != []
    requires turns[0].cancelled ==> reqs == []
    requires !turns[0].cancelled ==> reqs != [] && reqs[0].result == Acquire(turns[0].reply)
                                     && reqs == [reqs[0]] + (if GoesOn(turns[0]) then rest else [])
    ensures Tokens(reqs) == (if !turns[0].cancelled && Grants(turns[0].reply) then [turns[0].reply.token] else [])
                            + (if GoesOn(turns[0]) then Tokens(rest) else [])
  {
    if reqs != [] {
      TokensCons(reqs[0], if GoesOn(turns[0]) then rest else []);
      assert Tokens([]) == [];
    }
  }

  /** The whole life of the manager: it gives up at once if it has no secret to register the key
      with or the registration is refused; otherwise the tokens it stores are those the replies
      carry, in order. The spent secret's lines are removed from the environment file exactly
      after a successful registration, if the file can be written. */
  method RunTokenManager(needed: bool, secret: string, reply: KeyReply, file: string, writable: bool,
                         turns: seq<Turn>, now: int, store: TokenStore)
    returns (file': string, ghost reqs: seq<Request>)
    requires store.Valid()
    modifies store
    ensures store.Valid()
    ensures needed && (secret == "" || reply == 401) ==>
              reqs == [] && store.stored == old(store.stored) && store.ready == old(store.ready)
    ensures !needed || (secret != "" && reply != 401) ==>
              && reqs == Requests(turns, now) && Follows(turns, now, reqs)
              && store.stored == old(store.stored) + Given(turns, |turns|)
              && (store.ready <==> old(store.ready) || Given(turns, |turns|) != [])
    ensures file' == if needed && secret != "" && reply == 200 && writable then Remove(file, SECRET_KEY) else file
  {
    hide Follows, Given;
    file' := SpendSecret(needed, secret, reply, file, writable);
    reqs := [];
    if needed && (secret == "" || reply == 401) {
      return;
    }
    reqs := KeepToken(turns, now, store);
  }

  /** The enrolment secret is wiped once it has been spent. */
  method SpendSecret(needed: bool, secret: string, reply: KeyReply, file: string, writable: bool)
    returns (file': string)
    ensures file' == if needed && secret != "" && reply == 200 && writable then Remove(file, SECRET_KEY) else file
    ensures Register(needed, secret, reply).Registered? <==> needed && secret != "" && reply == 200
  {
    file' := file;
    if needed && secret != "" && reply == 200 {
      var content, rewritten := RemoveEnvKey(file, SECRET_KEY);
      if writable {
        file' := content;
      }
    }
  }

  /** The store receives exactly the tokens the replies carry, in order; the requests are those of
      the turns reached, each when it is due. */
  method KeepToken(turns: seq<Turn>, now: int, store: TokenStore) returns (ghost reqs: seq<Request>)
    requires store.Valid()
    modifies store
    ensures store.Valid() && store.stored == old(store.stored) + Given(turns, |turns|)
    ensures store.ready <==> old(store.ready) || Given(turns, |turns|) != []
    ensures reqs == Requests(turns, now) && Follows(turns, now, reqs)
  {
    hide Requests, Tokens, NextIn, Acquire, Given, Reached, MadeAt;
    RequestsFollow(turns, now);
    reqs := [];
    var due, i := now, 0;
    ghost var s0 := store.stored;
    NoRequestsYet(turns, now, s0);
    while i < |turns| && !turns[i].cancelled
      invariant 0 <= i <= |turns| && store.Valid()
      invariant store.stored == s0 + Tokens(reqs)
      invariant store.ready <==> old(store.ready) || Tokens(reqs) != []
      invariant Requests(turns, now) == reqs + Requests(turns[i..], due)
    {
      var t := turns[i];
      var start := due + t.late;
      var result := Acquire(t.reply);
      ghost var req := Request(start, start + t.took, result);
      RequestsStep(turns, i, due, reqs, req, s0);
      if result.Granted? {
        store.Set(result.token);
      }
      reqs := reqs + [req];
      if result.DeviceRefused? || (result.Failed? && t.cancelledAfter) {
        return;
      }
      due := start + t.took + NextIn(result);
      i := i + 1;
    }
    NoMoreRequests(turns, i, due, reqs);
  }

  lemma NoRequestsYet(turns: seq<Turn>, now: int, s0: seq<string>)
    ensures Requests(turns, now) == [] + Requests(turns[0..], now)
    ensures Tokens([]) == [] && s0 == s0 + []
  {
    assert turns[0..] == turns;
  }

  lemma NoMoreRequests(turns: seq<Turn>, i: nat, due: int, reqs: seq<Request>)
    requires i <= |turns| && (i < |turns| ==> turns[i].cancelled)
    ensures reqs + Requests(turns[i..], due) == reqs
  {
  }

  lemma RequestsStep(turns: seq<Turn>, i: nat, due: int, reqs: seq<Request>, req: Request, s0: seq<string>)
    requires i < |turns| && !turns[i].cancelled
    requires var t := turns[i]; req == Request(due + t.late, due + t.late + t.took, Acquire(t.reply))
    ensures reqs + Requests(turns[i..], due) ==
            if req.result.DeviceRefused? || (req.result.Failed? && turns[i].cancelledAfter) then reqs + [req]
            else (reqs + [req]) + Requests(turns[i + 1..], req.finish + NextIn(req.result))
    ensures s0 + Tokens(reqs + [req])
            == (s0 + Tokens(reqs)) + (if req.result.Granted? then [req.result.token] else [])
    ensures Tokens(reqs + [req]) != [] <==> Tokens(reqs) != [] || req.result.Granted?
  {
    assert turns[i..][1..] == turns[i + 1..];
    assert (reqs + [req])[..|reqs|] == reqs;
  }

  /* ---- What every run satisfies ---- */

  /** Only the last request can be a refusal: nothing is asked after one. Every token that
      reaches the store is non-empty. */
  lemma {:induction false} NothingAfterRefusal(turns: seq<Turn>, due: int)
    ensures var reqs := Requests(turns, due);
            (forall j :: 0 <= j < |reqs| - 1 ==> !reqs[j].result.DeviceRefused?)
            && "" !in Tokens(reqs)
  {
    var reqs := Requests(turns, due);
    if reqs != [] {
      if |reqs| > 1 {
        var next := reqs[0].finish + NextIn(reqs[0].result);
        NothingAfterRefusal(turns[1..], next);
        assert reqs == [reqs[0]] + Requests(turns[1..], next);
        TokensCons(reqs[0], Requests(turns[1..], next));
      } else {
        assert reqs[..0] == [];
      }
    }
  }

  /** Request j + 1 is due the chosen delay after request j finished. */
  lemma {:induction false} Spacing(turns: seq<Turn>, due: int, j: nat)
    requires j + 1 < |Requests(turns, due)|
    ensures |Requests(turns, due)| <= |turns|
    ensures var reqs := Requests(turns, due);
            && !reqs[j].result.DeviceRefused?
            && reqs[j + 1].start == reqs[j].finish + NextIn(reqs[j].result) + turns[j + 1].late
            && reqs[j + 1].finish == reqs[j + 1].start + turns[j + 1].took
  {
    var reqs := Requests(turns, due);
    NothingAfterRefusal(turns, due);
    var next := reqs[0].finish + NextIn(reqs[0].result);
    var rest := Requests(turns[1..], next);
    assert reqs == [reqs[0]] + rest;
    if j > 0 {
      Spacing(turns[1..], next, j - 1);
    } else {
      CountRequests(turns[1..], next);
    }
  }

  lemma {:induction false} CountRequests(turns: seq<Turn>, due: int)
    ensures |Requests(turns, due)| <= |turns|
  {
    if |Requests(turns, due)| > 1 {
      var req := Requests(turns, due)[0];
      CountRequests(turns[1..], req.finish + NextIn(req.result));
    }
  }

  /** Between request i, which was granted, and request i + m, everything failed promptly and
      the timer was punctual. */
  ghost predicate FailsPromptly(turns: seq<Turn>, due: int, i: nat, m: nat) {
    && m >= 1 && i + m < |Requests(turns, due)| <= |turns|
    && Requests(turns, due)[i].result.Granted?
    && (forall j :: i < j < i + m ==> Requests(turns, due)[j].result.Failed? && turns[j].took <= HTTP_TIMEOUT)
    && (forall j :: i < j <= i + m ==> turns[j].late == 0)
  }

  lemma {:induction false} AttemptStart(turns: seq<Turn>, due: int, i: nat, m: nat)
    requires FailsPromptly(turns, due, i, m)
    ensures var reqs := Requests(turns, due);
            reqs[i + m].start <= reqs[i].finish + RenewDelay(reqs[i].result.ttl) + (m - 1) * (RETRY + HTTP_TIMEOUT)
  {
    hide Requests, RenewDelay;
    Spacing(turns, due, i + m - 1);
    if m > 1 {
      AttemptStart(turns, due, i, m - 1);
      Spacing(turns, due, i + m - 2);
    }
  }

  /** Renewal before expiry: with a lifetime of at least five minutes counted from receipt,
      the first 1 + (ttl - renewDelay) / 150 s attempts all start by the time it expires. */
  lemma AttemptsBeforeExpiry(turns: seq<Turn>, due: int, i: nat, m: nat)
    requires FailsPromptly(turns, due, i, m)
    requires var ttl := Requests(turns, due)[i].result.ttl;
             ttl >= RENEW_MIN && m <= 1 + (ttl - RenewDelay(ttl)) / (RETRY + HTTP_TIMEOUT)
    ensures var reqs := Requests(turns, due);
            reqs[i + m].start <= reqs[i].finish + reqs[i].result.ttl
  {
    hide Requests, RenewDelay;
    AttemptStart(turns, due, i, m);
  }
}
