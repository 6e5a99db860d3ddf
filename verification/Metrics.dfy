/** cmd/agent/metrics_ship.go: the reporter loop and its bounded, newest-wins buffer. */
module Metrics {
  import opened Prelude

  const MAX_BUFFERED := 60
  const INITIAL_DELAY := 30 * SECOND
  const INTERVAL := MINUTE
  const RETRY_DELAY := 5 * MINUTE
  const CREDENTIALS_TTL := 24 * 60 * MINUTE

  /** The last n elements, or all of them when there are fewer. */
  function Last<T>(s: seq<T>, n: nat): seq<T> { if |s| > n then s[|s| - n..] else s }

  function AppendBounded<T>(buffer: seq<T>, batch: seq<T>, cap: nat): seq<T> {
    var b := buffer + batch;
    if |b| > cap then b[|b| - cap..] else b
  }

  /** Dropping oldest-first step by step keeps exactly the newest of the whole history. */
  lemma BoundedIsNewest<T>(history: seq<T>, batch: seq<T>, cap: nat)
    ensures AppendBounded(Last(history, cap), batch, cap) == Last(history + batch, cap)
  {
    var kept := Last(history, cap);
    assert kept == history[|history| - |kept|..];
    assert kept + batch == (history + batch)[|history| - |kept|..];
  }

  datatype Fetch = Fetched | Refused | FetchFailed
  datatype Ship = Shipped | Unauthorized | ShipFailed

  /** The environment's part in one tick. */
  datatype Tick<T> = Tick(now: int, fetch: Fetch, ship: Ship, cancelled: bool,
                          system: Option<T>, filesystems: seq<T>, networks: seq<T>)

  function Batch<T>(t: Tick<T>): seq<T> {
    (if t.system.Some? then [t.system.value] else []) + t.filesystems + t.networks
  }

  /* ---- One tick ---- */

  /** A batch successfully shipped, and where in the collection it began. */
  datatype Shipment<T> = Shipment(at: int, docs: seq<T>)

  /** Value of the reporter. `timer` is when the next tick comes, None once it has stopped;
      `collected` is every document ever sampled; `ships` the batches successfully shipped. */
  datatype State<T> = State(credsAt: Option<int>, buffer: seq<T>, timer: Option<int>,
                            collected: seq<T>, ships: seq<Shipment<T>>)

  function Start<T>(): State<T> { State(None, [], Some(INITIAL_DELAY), [], []) }

  predicate NeedsCreds<T>(s: State<T>, now: int) { s.credsAt.None? || now - s.credsAt.value > CREDENTIALS_TTL }

  function Sampled<T>(s: State<T>, batch: seq<T>): State<T> {
    s.(buffer := AppendBounded(s.buffer, batch, MAX_BUFFERED), collected := s.collected + batch)
  }

  function Sent<T>(s: State<T>, t: Tick<T>): State<T> {
    if s.buffer == [] then s.(timer := Some(INTERVAL))
    else match t.ship
      case Unauthorized => s.(credsAt := None, timer := Some(RETRY_DELAY))
      case ShipFailed => s.(timer := if t.cancelled then None else Some(RETRY_DELAY))
      case Shipped =>
        s.(buffer := [], timer := Some(INTERVAL), ships := s.ships + [Shipment(|s.collected| - |s.buffer|, s.buffer)])
  }

  function Ticked<T>(s: State<T>, t: Tick<T>): State<T> {
    if s.timer.None? then s
    else if NeedsCreds(s, t.now) then
      match t.fetch
      case Refused => s.(timer := None)
      case FetchFailed => s.(timer := if t.cancelled then None else Some(RETRY_DELAY))
      case Fetched => Sent(Sampled(s.(credsAt := Some(t.now)), Batch(t)), t)
    else Sent(Sampled(s, Batch(t)), t)
  }

  function TickedAll<T>(s: State<T>, ticks: seq<Tick<T>>): State<T> {
    if ticks == [] then s else Ticked(TickedAll(s, ticks[..|ticks| - 1]), ticks[|ticks| - 1])
  }

  class Reporter<T> {
    var credsAt: Option<int>
    var buffer: seq<T>
    var timer: Option<int>
    ghost var collected: seq<T>
    ghost var ships: seq<Shipment<T>>

    ghost function Value(): State<T>
      reads this
    {
      State(credsAt, buffer, timer, collected, ships)
    }

    constructor ()
      ensures Value() == Start()
    {
      credsAt, buffer, timer, collected, ships := None, [], Some(INITIAL_DELAY), [], [];
    }

    /** One turn of the loop. */
    method OnTick(t: Tick<T>)
      requires timer.Some?
      modifies this
      ensures Value() == Ticked(old(Value()), t)
    {
      if credsAt.None? || t.now - credsAt.value > CREDENTIALS_TTL {
        if t.fetch.Refused? || (t.fetch.FetchFailed? && t.cancelled) {
          timer := None;
          return;
        }
        if t.fetch.FetchFailed? {
          timer := Some(RETRY_DELAY);
          return;
        }
        credsAt := Some(t.now);
      }
      buffer, collected := AppendBounded(buffer, Batch(t), MAX_BUFFERED), collected + Batch(t);
      var next := INTERVAL;
      if |buffer| > 0 {
        if t.ship.Unauthorized? {
          credsAt, next := None, RETRY_DELAY;
        } else if t.ship.ShipFailed? {
          if t.cancelled {
            timer := None;
            return;
          }
          next := RETRY_DELAY;
        } else {
          ships := ships + [Shipment(|collected| - |buffer|, buffer)];
          buffer := [];
        }
      }
      timer := Some(next);
    }

    /** The whole loop, over any sequence of ticks. */
    method Run(ticks: seq<Tick<T>>)
      modifies this
      ensures Value() == TickedAll(old(Value()), ticks)
    {
      for i := 0 to |ticks|
        invariant Value() == TickedAll(old(Value()), ticks[..i])
      {
        assert ticks[..i + 1][..i] == ticks[..i];
        if timer.Some? {
          OnTick(ticks[i]);
        }
      }
      assert ticks[..|ticks|] == ticks;
    }
  }

  /* ---- What every run keeps ---- */

  /** Where the last successful ship ends in the collection. */
  function Base<T>(s: State<T>): int {
    if s.ships == [] then 0 else End(s.ships[|s.ships| - 1])
  }

  function End<T>(p: Shipment<T>): int { p.at + |p.docs| }

  /** Each ship is the run of the collection that begins where it says; ships come one after
      the other without overlap; and the buffer is the newest 60 of what was collected after
      the last. */
  ghost predicate Refines<T>(s: State<T>) {
    && (forall j :: 0 <= j < |s.ships| ==> Part(s.collected, s.ships[j]))
    && (forall j, k :: 0 <= j < k < |s.ships| ==> End(s.ships[j]) <= s.ships[k].at)
    && 0 <= Base(s) <= |s.collected| && s.buffer == Last(s.collected[Base(s)..], MAX_BUFFERED)
  }

  ghost predicate Part<T>(collected: seq<T>, p: Shipment<T>) {
    1 <= |p.docs| <= MAX_BUFFERED && 0 <= p.at && End(p) <= |collected| && collected[p.at..End(p)] == p.docs
  }

  lemma SampleRefines<T>(s: State<T>, batch: seq<T>)
    requires Refines(s)
    ensures Refines(Sampled(s, batch))
  {
    hide AppendBounded, Last;
    var t, base := Sampled(s, batch), Base(s);
    BoundedIsNewest(s.collected[base..], batch, MAX_BUFFERED);
    assert (s.collected + batch)[base..] == s.collected[base..] + batch;
    forall j | 0 <= j < |s.ships|
      ensures Part(t.collected, s.ships[j])
    {
      var p := s.ships[j];
      assert Part(s.collected, p);
      assert t.collected[p.at..End(p)] == s.collected[p.at..End(p)];
    }
  }

  /** The buffer is the end of the collection. */
  lemma BufferIsLast<T>(s: State<T>)
    requires Refines(s)
    ensures var n := |s.collected| - |s.buffer|;
            |s.buffer| <= MAX_BUFFERED && Base(s) <= n && s.collected[n..n + |s.buffer|] == s.buffer
  {
    hide Part;
    var base, n := Base(s), |s.collected| - |s.buffer|;
    SliceOfSlice(s.collected, base, |s.collected|, n - base, |s.collected| - base);
    assert s.collected[base..|s.collected|] == s.collected[base..];
  }

  lemma ShipRefines<T>(s: State<T>, t: State<T>)
    requires Refines(s) && s.buffer != []
    requires t.buffer == [] && t.collected == s.collected
    requires t.ships == s.ships + [Shipment(|s.collected| - |s.buffer|, s.buffer)]
    ensures Refines(t)
  {
    hide Last;
    BufferIsLast(s);
    assert Part(t.collected, t.ships[|s.ships|]);
    forall j | 0 <= j < |s.ships|
      ensures Part(t.collected, t.ships[j]) && End(s.ships[j]) <= Base(s)
    {
      assert Part(s.collected, s.ships[j]);
    }
    NothingLeft(s.collected);
  }

  lemma NothingLeft<T>(s: seq<T>)
    ensures s[|s|..] == [] && Last<T>([], MAX_BUFFERED) == []
  {
  }

  lemma SendRefines<T>(s: State<T>, t: Tick<T>)
    requires Refines(s)
    ensures Refines(Sent(s, t))
  {
    hide Refines;
    if s.buffer != [] && t.ship.Shipped? {
      ShipRefines(s, Sent(s, t));
    } else {
      SameRecord(s, Sent(s, t));
    }
  }

  lemma SameRecord<T>(s: State<T>, t: State<T>)
    requires Refines(s) && t.buffer == s.buffer && t.collected == s.collected && t.ships == s.ships
    ensures Refines(t)
  {
  }

  lemma TickRefines<T>(s: State<T>, t: Tick<T>)
    requires Refines(s)
    ensures Refines(Ticked(s, t))
  {
    hide Refines, Sent, Batch, Sampled;
    var u := if s.timer.Some? && NeedsCreds(s, t.now) && t.fetch.Fetched? then s.(credsAt := Some(t.now)) else s;
    SameRecord(s, u);
    if s.timer.None? || (NeedsCreds(s, t.now) && !t.fetch.Fetched?) {
      SameRecord(s, Ticked(s, t));
    } else {
      SampleRefines(u, Batch(t));
      SendRefines(Sampled(u, Batch(t)), t);
    }
  }

  /** After any history of successes, failures and rejected keys the buffer is the newest 60
      documents collected since the last successful ship, and each successful ship is the run
      of the collection at its own position, none overlapping the next. */
  lemma {:induction false} NewestUnsent<T>(ticks: seq<Tick<T>>)
    ensures Refines(TickedAll(Start(), ticks))
  {
    hide Refines, Ticked;
    if ticks == [] {
      NothingYet<T>();
    } else {
      NewestUnsent(ticks[..|ticks| - 1]);
      TickRefines(TickedAll(Start(), ticks[..|ticks| - 1]), ticks[|ticks| - 1]);
    }
  }

  lemma NothingYet<T>()
    ensures Refines(Start<T>())
  {
  }

  /* ---- Credentials and timing, over every history ---- */

  /** The state a history leads to. */
  function Now<T>(ticks: seq<Tick<T>>): State<T> { TickedAll(Start(), ticks) }

  lemma NowSnoc<T>(ticks: seq<Tick<T>>, t: Tick<T>)
    ensures Now(ticks + [t]) == Ticked(Now(ticks), t)
  {
    assert (ticks + [t])[..|ticks|] == ticks;
  }

  /** After this history a tick at this time asks for credentials first: there are none, or they
      are more than a day old. */
  predicate AsksFirst<T>(ticks: seq<Tick<T>>, now: int) {
    Now(ticks).credsAt.None? || now - Now(ticks).credsAt.value > 86_400 * SECOND
  }

  /** The tick gets as far as sampling: the reporter has not stopped, and has credentials. */
  predicate Samples<T>(ticks: seq<Tick<T>>, t: Tick<T>) {
    Now(ticks).timer.Some? && (AsksFirst(ticks, t.now) ==> t.fetch.Fetched?)
  }

  /** It also has something to ship, this being the answer. */
  predicate Ships<T>(ticks: seq<Tick<T>>, t: Tick<T>, answer: Ship) {
    && Samples(ticks, t) && t.ship == answer
    && (Now(ticks).buffer != [] || t.system.Some? || t.filesystems != [] || t.networks != [])
  }

  /** When the next tick comes: half a minute after the start; in five minutes after a failure or
      a rejected key, in a minute otherwise; never once the device is refused, or a failure finds the context done. */
  lemma NextTickComes<T>(ticks: seq<Tick<T>>, t: Tick<T>)
    requires Now(ticks).timer.Some?
    ensures Now<T>([]).timer == Some(30 * SECOND)
    ensures var u := Now(ticks + [t]);
            && (u.timer.None? <==> || (AsksFirst(ticks, t.now) && t.fetch.Refused?)
                                   || (AsksFirst(ticks, t.now) && t.fetch.FetchFailed? && t.cancelled)
                                   || (Ships(ticks, t, ShipFailed) && t.cancelled))
            && (u.timer == Some(300 * SECOND)
                <==> || (AsksFirst(ticks, t.now) && t.fetch.FetchFailed? && !t.cancelled)
                     || Ships(ticks, t, Unauthorized) || (Ships(ticks, t, ShipFailed) && !t.cancelled))
            && (u.timer.Some? ==> u.timer.value in {60 * SECOND, 300 * SECOND})
  {
    hide TickedAll, AppendBounded;
    FirstTick<T>();
    NowSnoc(ticks, t);
    SampledEmpty(Now(ticks), t);
  }

  lemma FirstTick<T>()
    ensures Now<T>([]).timer == Some(30 * SECOND)
  {
  }

  /** There is something to ship exactly when something was waiting or was sampled. */
  lemma SampledEmpty<T>(s: State<T>, t: Tick<T>)
    ensures Sampled(s, Batch(t)).buffer == []
            <==> s.buffer == [] && t.system.None? && t.filesystems == [] && t.networks == []
  {
    var b := s.buffer + Batch(t);
    assert |b| == |s.buffer| + |Batch(t)|;
  }

  /** What the credentials are afterwards: dropped by a rejected key, else those just fetched,
      else those there were. */
  lemma CredentialsFollow<T>(ticks: seq<Tick<T>>, t: Tick<T>)
    requires Now(ticks).timer.Some?
    ensures Now(ticks + [t]).credsAt
            == if Ships(ticks, t, Unauthorized) then None
               else if AsksFirst(ticks, t.now) && t.fetch.Fetched? then Some(t.now) else Now(ticks).credsAt
  {
    hide TickedAll, AppendBounded;
    NowSnoc(ticks, t);
    SampledEmpty(Now(ticks), t);
  }

  /** So the tick after a rejected key, whenever it comes, asks for new credentials first, and
      nothing is sampled or shipped before it has them; the documents are still there. */
  lemma RejectedKeyIsReplaced<T>(ticks: seq<Tick<T>>, t: Tick<T>, v: Tick<T>)
    requires Ships(ticks, t, Unauthorized)
    ensures AsksFirst(ticks + [t], v.now)
    ensures !v.fetch.Fetched? ==>
              && Now(ticks + [t] + [v]).collected == Now(ticks + [t]).collected
              && Now(ticks + [t] + [v]).buffer == Now(ticks + [t]).buffer
    ensures Now(ticks + [t]).ships == Now(ticks).ships
    ensures Now(ticks + [t]).buffer == Last(Now(ticks).buffer + Batch(t), 60)
  {
    hide TickedAll, AppendBounded;
    CredentialsFollow(ticks, t);
    NowSnoc(ticks, t);
    NowSnoc(ticks + [t], v);
    SampledEmpty(Now(ticks), t);
    BufferIsNewest(Now(ticks), t);
  }

  lemma BufferIsNewest<T>(s: State<T>, t: Tick<T>)
    ensures Sampled(s, Batch(t)).buffer == Last(s.buffer + Batch(t), 60)
  {
  }

  /** Every tick that gets as far as sampling adds its documents, the system's first, then the file
      systems', then the networks'; no other adds any. */
  lemma CollectsEachSample<T>(ticks: seq<Tick<T>>, t: Tick<T>)
    ensures Now(ticks + [t]).collected
            == Now(ticks).collected
               + if !Samples(ticks, t) then []
                 else (if t.system.Some? then [t.system.value] else []) + t.filesystems + t.networks
  {
    hide TickedAll, AppendBounded;
    NowSnoc(ticks, t);
    assert Now(ticks).collected + [] == Now(ticks).collected;
  }

  /** A successful ship takes the whole buffer. */
  lemma ShipTakesAll<T>(ticks: seq<Tick<T>>, t: Tick<T>)
    requires Ships(ticks, t, Shipped)
    ensures var u := Now(ticks + [t]);
            && u.buffer == [] && |u.ships| == |Now(ticks).ships| + 1
            && u.ships[..|Now(ticks).ships|] == Now(ticks).ships
            && u.ships[|Now(ticks).ships|].docs == Last(Now(ticks).buffer + Batch(t), 60)
  {
    hide TickedAll, AppendBounded;
    NowSnoc(ticks, t);
    SampledEmpty(Now(ticks), t);
    BufferIsNewest(Now(ticks), t);
  }
}
