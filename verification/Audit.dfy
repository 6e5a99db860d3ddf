/** internal/audit/audit.go and forward.go: the logger and the lossy, batching forwarder. */
module Audit {
  import opened Prelude

  datatype Event = Event(kind: string, orgID: string)

  const BATCH_SIZE := 50
  const QUEUE_SIZE := 500

  /** Value of a forwarder: the queue channel, the batch being filled, and for the record
      everything accepted into the queue, everything refused by it, and the batches posted. */
  datatype Pipe = Pipe(queue: seq<Event>, batch: seq<Event>,
                       accepted: seq<Event>, dropped: seq<Event>, posted: seq<seq<Event>>)

  const EMPTY := Pipe([], [], [], [], [])

  function Enqueued(p: Pipe, e: Event): Pipe {
    if |p.queue| < QUEUE_SIZE then p.(queue := p.queue + [e], accepted := p.accepted + [e])
    else p.(dropped := p.dropped + [e])
  }

  function Flushed(p: Pipe): Pipe {
    if p.batch == [] then p else p.(batch := [], posted := p.posted + [p.batch])
  }

  function Received(p: Pipe): Pipe
    requires p.queue != []
  {
    var q := p.(queue := p.queue[1..], batch := p.batch + [p.queue[0]]);
    if |q.batch| >= BATCH_SIZE then Flushed(q) else q
  }

  /** What happens next: another goroutine emits, or the select in Run takes one of its arms.
      A receive on an empty queue does not fire. */
  datatype Choice = Emitted(e: Event) | Receive | Tick | Done

  /** Emit hands on only the events of some organisation. */
  function Offered(p: Pipe, e: Event): Pipe { if e.orgID == "" then p else Enqueued(p, e) }

  function After(p: Pipe, c: Choice): Pipe {
    match c
    case Emitted(e) => Offered(p, e)
    case Receive => if p.queue != [] then Received(p) else p
    case _ => Flushed(p)
  }

  /** The drain loop; it returns at Done, when what is still queued stays there. */
  function AfterAll(p: Pipe, schedule: seq<Choice>): Pipe
    decreases |schedule|
  {
    if schedule == [] then p
    else if schedule[0].Done? then Flushed(p)
    else AfterAll(After(p, schedule[0]), schedule[1..])
  }

  class Forwarder {
    var queue: seq<Event>
    var batch: seq<Event>
    ghost var accepted: seq<Event>
    ghost var dropped: seq<Event>
    ghost var posted: seq<seq<Event>>

    ghost function Value(): Pipe
      reads this
    {
      Pipe(queue, batch, accepted, dropped, posted)
    }

    constructor ()
      ensures Value() == EMPTY
    {
      queue, batch, accepted, dropped, posted := [], [], [], [], [];
    }

    /** Never blocks: a full queue drops the event. */
    method Enqueue(e: Event)
      modifies this
      ensures Value() == Enqueued(old(Value()), e)
    {
      if |queue| < QUEUE_SIZE {
        queue, accepted := queue + [e], accepted + [e];
      } else {
        dropped := dropped + [e];
      }
    }

    /** Hands a non-empty batch to the sink; a failure of the sink loses the whole batch. */
    method Post()
      modifies this
      ensures Value() == Flushed(old(Value()))
    {
      if |batch| == 0 {
        return;
      }
      posted := posted + [batch];
      batch := [];
    }

    method ReceiveOne()
      requires queue != []
      modifies this
      ensures Value() == Received(old(Value()))
    {
      queue, batch := queue[1..], batch + [queue[0]];
      if |batch| >= BATCH_SIZE {
        Post();
      }
    }

    /** The loop, over any interleaving with goroutines that emit through the logger. */
    method Run(log: Logger, schedule: seq<Choice>) returns (stopped: bool)
      requires log.forwarder == this && log.Valid()
      modifies this, log
      ensures log.Valid() && Value() == AfterAll(old(Value()), schedule)
      ensures log.lines == old(log.lines) + Lines(schedule)
      ensures stopped <==> Done in schedule
    {
      hide OrgScoped, After, Flushed;
      for i := 0 to |schedule|
        invariant log.Valid() && AfterAll(Value(), schedule[i..]) == AfterAll(old(Value()), schedule)
        invariant log.lines + Lines(schedule[i..]) == old(log.lines) + Lines(schedule)
        invariant Done !in schedule[..i]
      {
        TurnOver(Value(), log.lines, schedule, i);
        Turn(log, schedule[i]);
        if schedule[i].Done? {
          return true;
        }
      }
      assert schedule[..|schedule|] == schedule;
      assert log.lines + [] == log.lines;
      stopped := false;
    }

    method Turn(log: Logger, c: Choice)
      requires log.forwarder == this && log.Valid()
      modifies this, log
      ensures log.Valid() && Value() == After(old(Value()), c)
      ensures log.lines == old(log.lines) + Line(c)
    {
      hide OrgScoped;
      assert log.lines + [] == log.lines;
      match c {
        case Emitted(e) => log.Emit(e);
        case Receive => if queue != [] { ReceiveOne(); }
        case _ => Post();
      }
    }
  }

  function Line(c: Choice): seq<Event> { if c.Emitted? then [c.e] else [] }

  lemma TurnOver(p: Pipe, lines: seq<Event>, schedule: seq<Choice>, i: nat)
    requires i < |schedule|
    ensures schedule[..i + 1] == schedule[..i] + [schedule[i]]
    ensures AfterAll(p, schedule[i..])
            == if schedule[i].Done? then After(p, Done) else AfterAll(After(p, schedule[i]), schedule[i + 1..])
    ensures lines + Lines(schedule[i..])
            == (lines + Line(schedule[i])) + (if schedule[i].Done? then [] else Lines(schedule[i + 1..]))
  {
    hide AfterAll, Lines, After, Line;
    assert schedule[i..][1..] == schedule[i + 1..] && schedule[i..][0] == schedule[i];
    NextTurn(p, lines, schedule[i..]);
  }

  lemma NextTurn(p: Pipe, lines: seq<Event>, rest: seq<Choice>)
    requires rest != []
    ensures AfterAll(p, rest) == if rest[0].Done? then After(p, Done) else AfterAll(After(p, rest[0]), rest[1..])
    ensures lines + Lines(rest) == (lines + Line(rest[0])) + (if rest[0].Done? then [] else Lines(rest[1..]))
  {
    hide Flushed, Offered, Received;
  }

  /** What is emitted while the loop runs. */
  function Lines(schedule: seq<Choice>): seq<Event> {
    if schedule == [] || schedule[0].Done? then []
    else Line(schedule[0]) + Lines(schedule[1..])
  }

  /* ---- What every run of it keeps ---- */

  /** Conservation: the accepted events, in order, are the posted batches, then the current
      batch, then the queue; batches are non-empty and bounded, and so is the queue. */
  ghost predicate Conserves(p: Pipe) {
    && p.accepted == Flatten(p.posted) + p.batch + p.queue
    && |p.batch| < BATCH_SIZE && |p.queue| <= QUEUE_SIZE
    && forall i :: 0 <= i < |p.posted| ==> 1 <= |p.posted[i]| <= BATCH_SIZE
  }

  lemma FlushKeeps(p: Pipe)
    requires p.accepted == Flatten(p.posted) + p.batch + p.queue && |p.batch| <= BATCH_SIZE && |p.queue| <= QUEUE_SIZE
    requires forall i :: 0 <= i < |p.posted| ==> 1 <= |p.posted[i]| <= BATCH_SIZE
    ensures Conserves(Flushed(p))
  {
    if p.batch != [] {
      FlattenSnoc(p.posted, p.batch);
    }
  }

  lemma StepConserves(p: Pipe, c: Choice)
    requires Conserves(p)
    ensures Conserves(After(p, c))
  {
    if c.Receive? && p.queue != [] {
      var q := p.(queue := p.queue[1..], batch := p.batch + [p.queue[0]]);
      assert q.accepted == Flatten(q.posted) + q.batch + q.queue by {
        assert p.batch + p.queue == q.batch + q.queue;
      }
      if |q.batch| >= BATCH_SIZE {
        FlushKeeps(q);
      }
    } else if c.Emitted? {
      assert Flatten(p.posted) + p.batch + (p.queue + [c.e]) == Flatten(p.posted) + p.batch + p.queue + [c.e];
    } else {
      FlushKeeps(p);
    }
  }

  /** The org-scoped events among them. */
  function Emissions(schedule: seq<Choice>): seq<Event> { OrgScoped(Lines(schedule)) }

  /** es is a and d merged, each in its own order. */
  ghost predicate Merges(es: seq<Event>, a: seq<Event>, d: seq<Event>) {
    if es == [] then a == [] && d == []
    else
      var n := |es| - 1;
      || (a != [] && a[|a| - 1] == es[n] && Merges(es[..n], a[..|a| - 1], d))
      || (d != [] && d[|d| - 1] == es[n] && Merges(es[..n], a, d[..|d| - 1]))
  }

  lemma {:induction false} MergesConcat(es: seq<Event>, a: seq<Event>, d: seq<Event>,
                                        es': seq<Event>, a': seq<Event>, d': seq<Event>)
    requires Merges(es, a, d) && Merges(es', a', d')
    ensures Merges(es + es', a + a', d + d')
  {
    if es' == [] {
      assert es + es' == es && a + a' == a && d + d' == d;
    } else {
      var n := |es'| - 1;
      assert (es + es')[..|es + es'| - 1] == es + es'[..n];
      if a' != [] && a'[|a'| - 1] == es'[n] && Merges(es'[..n], a'[..|a'| - 1], d') {
        MergesConcat(es, a, d, es'[..n], a'[..|a'| - 1], d');
        assert (a + a')[..|a + a'| - 1] == a + a'[..|a'| - 1];
      } else {
        MergesConcat(es, a, d, es'[..n], a', d'[..|d'| - 1]);
        assert (d + d')[..|d + d'| - 1] == d + d'[..|d'| - 1];
      }
    }
  }

  /** So together they hold each event as often as es does. */
  lemma {:induction false} MergesCounts(es: seq<Event>, a: seq<Event>, d: seq<Event>)
    requires Merges(es, a, d)
    ensures multiset(a) + multiset(d) == multiset(es)
  {
    if es != [] {
      var n := |es| - 1;
      LastCounts(es);
      if a != [] && a[|a| - 1] == es[n] && Merges(es[..n], a[..|a| - 1], d) {
        MergesCounts(es[..n], a[..|a| - 1], d);
        LastCounts(a);
      } else {
        MergesCounts(es[..n], a, d[..|d| - 1]);
        LastCounts(d);
      }
    }
  }

  lemma LastCounts(s: seq<Event>)
    requires s != []
    ensures multiset(s) == multiset(s[..|s| - 1]) + multiset{s[|s| - 1]}
  {
    assert s == s[..|s| - 1] + [s[|s| - 1]];
  }

  /** q follows p in some run that emitted es: every event of es was either accepted or
      dropped, in order, and nothing else was. */
  ghost predicate Accounts(p: Pipe, q: Pipe, es: seq<Event>) {
    && p.accepted <= q.accepted && p.dropped <= q.dropped && p.posted <= q.posted
    && Merges(es, q.accepted[|p.accepted|..], q.dropped[|p.dropped|..])
  }

  lemma StepAccounts(p: Pipe, c: Choice)
    ensures Accounts(p, After(p, c), OrgScoped(Line(c)))
  {
    hide OrgScoped;
    OrgScopedNone();
    var q := After(p, c);
    if c.Emitted? {
      OrgScopedSnoc([], c.e);
      assert [] + [c.e] == [c.e] && [c.e][..0] == [] && Merges([], [], []);
      if c.e.orgID != "" {
        assert q.accepted[|p.accepted|..] == if |p.queue| < QUEUE_SIZE then [c.e] else [];
        assert q.dropped[|p.dropped|..] == if |p.queue| < QUEUE_SIZE then [] else [c.e];
      }
    }
  }

  lemma AccountsTransitive(p: Pipe, q: Pipe, r: Pipe, es: seq<Event>, fs: seq<Event>)
    requires Accounts(p, q, es) && Accounts(q, r, fs)
    ensures Accounts(p, r, es + fs)
  {
    hide Merges;
    MergesConcat(es, q.accepted[|p.accepted|..], q.dropped[|p.dropped|..],
                 fs, r.accepted[|q.accepted|..], r.dropped[|q.dropped|..]);
    assert r.accepted[|p.accepted|..] == q.accepted[|p.accepted|..] + r.accepted[|q.accepted|..];
    assert r.dropped[|p.dropped|..] == q.dropped[|p.dropped|..] + r.dropped[|q.dropped|..];
  }

  lemma EmissionsStep(schedule: seq<Choice>)
    requires schedule != [] && !schedule[0].Done?
    ensures Emissions(schedule) == OrgScoped(Line(schedule[0])) + Emissions(schedule[1..])
  {
    hide OrgScoped;
    OrgScopedNone();
    var rest := Lines(schedule[1..]);
    if schedule[0].Emitted? {
      OrgScopedCons(schedule[0].e, rest);
    } else {
      assert [] + rest == rest;
    }
  }

  lemma OrgScopedNone()
    ensures OrgScoped([]) == []
  {
  }

  lemma {:induction false} OrgScopedCons(e: Event, es: seq<Event>)
    ensures OrgScoped([e] + es) == OrgScoped([e]) + OrgScoped(es)
  {
    if es == [] {
      assert [e][..0] == [] && [e] + es == [e];
    } else {
      assert ([e] + es)[..|es|] == [e] + es[..|es| - 1];
      OrgScopedCons(e, es[..|es| - 1]);
    }
  }

  /** In every run, over any interleaving of emitters with the loop, nothing is duplicated and
      nothing vanishes: each org-scoped event emitted is accepted or dropped, in order, and
      each accepted one is posted exactly once, in order, in a batch of 1 to 50, unless it
      is still waiting. */
  lemma {:induction false} RunConserves(p: Pipe, schedule: seq<Choice>)
    requires Conserves(p)
    ensures Conserves(AfterAll(p, schedule)) && Accounts(p, AfterAll(p, schedule), Emissions(schedule))
    ensures Done in schedule ==> AfterAll(p, schedule).batch == []
    decreases |schedule|
  {
    hide After, Accounts, Conserves, Emissions, Flushed;
    if schedule == [] || schedule[0].Done? {
      NothingHappened(p, schedule);
      StepConserves(p, Done);
      StepAccounts(p, Done);
      DoneFlushes(p);
    } else {
      var q, es := After(p, schedule[0]), OrgScoped(Line(schedule[0]));
      StepConserves(p, schedule[0]);
      StepAccounts(p, schedule[0]);
      RunConserves(q, schedule[1..]);
      EmissionsStep(schedule);
      AccountsTransitive(p, q, AfterAll(p, schedule), es, Emissions(schedule[1..]));
      assert schedule == [schedule[0]] + schedule[1..];
    }
  }

  lemma NothingHappened(p: Pipe, schedule: seq<Choice>)
    requires schedule == [] || schedule[0].Done?
    ensures Accounts(p, p, []) && Emissions(schedule) == []
  {
  }

  lemma DoneFlushes(p: Pipe)
    ensures After(p, Done) == Flushed(p) && Flushed(p).batch == [] && OrgScoped(Line(Done)) == []
  {
  }

  lemma {:induction false} MergedFrom(es: seq<Event>, a: seq<Event>, d: seq<Event>)
    requires Merges(es, a, d)
    ensures forall e :: e in a ==> e in es
  {
    if es != [] {
      var n := |es| - 1;
      assert es == es[..n] + [es[n]];
      if a != [] && a[|a| - 1] == es[n] && Merges(es[..n], a[..|a| - 1], d) {
        MergedFrom(es[..n], a[..|a| - 1], d);
        assert a == a[..|a| - 1] + [a[|a| - 1]];
      } else {
        MergedFrom(es[..n], a, d[..|d| - 1]);
      }
    }
  }

  /** From the start: the org-scoped events emitted are the accepted and the dropped merged in
      order, they number as many, and only org-scoped events ever enter. */
  lemma OnlyOrgScopedEnter(schedule: seq<Choice>)
    ensures var q := AfterAll(EMPTY, schedule);
            && Merges(Emissions(schedule), q.accepted, q.dropped)
            && multiset(q.accepted) + multiset(q.dropped) == multiset(Emissions(schedule))
            && forall e :: e in q.accepted ==> e.orgID != ""
  {
    hide Merges, AfterAll, Lines;
    RunConserves(EMPTY, schedule);
    var q := AfterAll(EMPTY, schedule);
    assert q.accepted[0..] == q.accepted && q.dropped[0..] == q.dropped;
    MergesCounts(Emissions(schedule), q.accepted, q.dropped);
    MergedFrom(Emissions(schedule), q.accepted, q.dropped);
    FilterMembers(Lines(schedule), (e: Event) => e.orgID != "");
  }

  /* ---- Progress ---- */

  /** What the loop has taken off the queue: posted or in the batch. */
  function InHand(p: Pipe): seq<Event> { Flatten(p.posted) + p.batch }

  /** A receive takes the oldest event in hand, and posts the batch exactly when that makes it
      fifty; a tick posts whatever is in hand. Neither touches the rest. */
  lemma TakesOrPosts(p: Pipe)
    requires Conserves(p)
    ensures var q := After(p, Receive);
            && q.accepted == p.accepted && q.dropped == p.dropped
            && (p.queue == [] ==> q == p)
            && (p.queue != [] ==>
                  && q.queue == p.queue[1..] && InHand(q) == InHand(p) + [p.queue[0]]
                  && (|p.batch| == 49 ==> q.batch == [] && q.posted == p.posted + [p.batch + [p.queue[0]]])
                  && (|p.batch| < 49 ==> q.posted == p.posted))
    ensures var q := After(p, Tick);
            q.queue == p.queue && q.accepted == p.accepted && q.dropped == p.dropped
            && q.batch == [] && Flatten(q.posted) == InHand(p)
            && q.posted == p.posted + (if p.batch == [] then [] else [p.batch])
  {
    assert Flatten(p.posted) + [] == Flatten(p.posted) && p.posted + [] == p.posted;
    FlattenSnoc(p.posted, p.batch);
    if p.queue != [] {
      var b := p.batch + [p.queue[0]];
      FlattenSnoc(p.posted, b);
      assert Flatten(p.posted) + b == InHand(p) + [p.queue[0]];
      assert Flatten(p.posted + [b]) + [] == Flatten(p.posted) + b;
    }
  }

  lemma {:induction false} AfterConcat(p: Pipe, a: seq<Choice>, b: seq<Choice>)
    requires Done !in a
    ensures AfterAll(p, a + b) == AfterAll(AfterAll(p, a), b)
    decreases |a|
  {
    hide After;
    if a == [] {
      assert a + b == b;
    } else {
      assert (a + b)[1..] == a[1..] + b && a[0] in a;
      AfterConcat(After(p, a[0]), a[1..], b);
    }
  }

  /** After a tick nothing is held back: in any run of the loop what was accepted has been posted,
      in order, except what is still in the queue. */
  lemma TickPosts(p: Pipe, before: seq<Choice>)
    requires Conserves(p) && Done !in before
    ensures var u, q := AfterAll(p, before), AfterAll(p, before + [Tick]);
            && q.batch == [] && q.queue == u.queue
            && q.accepted == Flatten(q.posted) + q.queue && Flatten(q.posted) == InHand(u)
  {
    hide AfterAll, After, Accounts, Emissions, Flatten;
    RunConserves(p, before);
    AfterConcat(p, before, [Tick]);
    var u := AfterAll(p, before);
    OneTick(u);
    TakesOrPosts(u);
    StepConserves(u, Tick);
    var q := After(u, Tick);
    assert Flatten(q.posted) + q.batch == Flatten(q.posted);
  }

  lemma OneTick(p: Pipe)
    ensures AfterAll(p, [Tick]) == After(p, Tick)
  {
    hide After;
    assert [Tick][1..] == [];
  }

  function Receives(n: nat): seq<Choice> { if n == 0 then [] else [Receive] + Receives(n - 1) }

  lemma {:induction false} ReceivesEmpty(p: Pipe, n: nat)
    requires Conserves(p) && n >= |p.queue|
    ensures Done !in Receives(n) && AfterAll(p, Receives(n)).queue == []
    ensures AfterAll(p, Receives(n)).accepted == p.accepted
    decreases n
  {
    hide After, Conserves;
    if n > 0 {
      assert Receives(n)[1..] == Receives(n - 1);
      TakesOrPosts(p);
      StepConserves(p, Receive);
      ReceivesEmpty(After(p, Receive), n - 1);
    }
  }

  /** Left alone, the loop posts everything: one receive for each event in the queue and a tick,
      and all that was ever accepted has been posted, in order. */
  lemma DrainsAll(p: Pipe)
    requires Conserves(p)
    ensures var q := AfterAll(p, Receives(|p.queue|) + [Tick]);
            Flatten(q.posted) == q.accepted == p.accepted && q.queue == [] && q.batch == []
  {
    hide AfterAll, Conserves, InHand;
    ReceivesEmpty(p, |p.queue|);
    TickPosts(p, Receives(|p.queue|));
    var q := AfterAll(p, Receives(|p.queue|) + [Tick]);
    assert Flatten(q.posted) + [] == Flatten(q.posted);
    TickKeepsAccepted(p, Receives(|p.queue|));
  }

  lemma TickKeepsAccepted(p: Pipe, before: seq<Choice>)
    requires Conserves(p) && Done !in before
    ensures AfterAll(p, before + [Tick]).accepted == AfterAll(p, before).accepted
  {
    hide AfterAll, After, Accounts, Emissions;
    RunConserves(p, before);
    AfterConcat(p, before, [Tick]);
    OneTick(AfterAll(p, before));
    TakesOrPosts(AfterAll(p, before));
  }

  /* ---- When events are lost ---- */

  /** The n-th thing to happen is the emission of an org-scoped event into a full queue. */
  ghost predicate FullAt(p: Pipe, schedule: seq<Choice>, n: nat) {
    && n < |schedule| && Done !in schedule[..n] && schedule[n].Emitted? && schedule[n].e.orgID != ""
    && |AfterAll(p, schedule[..n]).queue| >= 500
  }

  lemma FullShift(p: Pipe, schedule: seq<Choice>, n: nat)
    requires schedule != [] && !schedule[0].Done?
    ensures FullAt(p, schedule, n + 1) <==> FullAt(After(p, schedule[0]), schedule[1..], n)
  {
    if n + 1 < |schedule| {
      assert schedule[..n + 1] == [schedule[0]] + schedule[1..][..n];
      assert schedule[..n + 1][1..] == schedule[1..][..n];
    }
  }

  /** A run drops an event exactly when at some emission the queue is full. */
  lemma {:induction false} DropsOnlyWhenFull(p: Pipe, schedule: seq<Choice>)
    ensures p.dropped <= AfterAll(p, schedule).dropped
    ensures AfterAll(p, schedule).dropped != p.dropped <==> exists n :: FullAt(p, schedule, n)
    decreases |schedule|
  {
    hide FullAt;
    if schedule == [] || schedule[0].Done? {
      forall n: nat
        ensures !FullAt(p, schedule, n)
      {
        NeverFull(p, schedule, n);
      }
    } else {
      var q := After(p, schedule[0]);
      DropsOnlyWhenFull(q, schedule[1..]);
      FirstFull(p, schedule);
      if n: nat :| FullAt(q, schedule[1..], n) {
        FullShift(p, schedule, n);
      }
      if n: nat :| FullAt(p, schedule, n) {
        if n > 0 {
          FullShift(p, schedule, n - 1);
        }
      }
    }
  }

  lemma NeverFull(p: Pipe, schedule: seq<Choice>, n: nat)
    requires schedule == [] || schedule[0].Done?
    ensures !FullAt(p, schedule, n)
  {
    if 0 < n < |schedule| {
      assert schedule[0] in schedule[..n];
    }
  }

  lemma FirstFull(p: Pipe, schedule: seq<Choice>)
    requires schedule != [] && !schedule[0].Done?
    ensures FullAt(p, schedule, 0) <==> After(p, schedule[0]).dropped != p.dropped
    ensures p.dropped <= After(p, schedule[0]).dropped
  {
    assert schedule[..0] == [];
  }

  lemma {:induction false} StopsAtDone(p: Pipe, before: seq<Choice>)
    requires Done !in before
    ensures AfterAll(p, before + [Done]) == Flushed(AfterAll(p, before))
    decreases |before|
  {
    if before == [] {
      assert before + [Done] == [Done];
    } else {
      assert (before + [Done])[1..] == before[1..] + [Done];
      assert before[0] in before;
      StopsAtDone(After(p, before[0]), before[1..]);
    }
  }

  /** Shutdown posts the current batch and leaves the queue: everything accepted has been
      posted exactly when the queue is empty just before. */
  lemma FlushesAllIff(before: seq<Choice>)
    requires Done !in before
    ensures var q := AfterAll(EMPTY, before + [Done]);
            Flatten(q.posted) == q.accepted <==> AfterAll(EMPTY, before).queue == []
  {
    hide AfterAll, Accounts;
    RunConserves(EMPTY, before);
    RunConserves(EMPTY, before + [Done]);
    StopsAtDone(EMPTY, before);
    var q := AfterAll(EMPTY, before + [Done]);
    assert Flatten(q.posted) + [] == Flatten(q.posted);
    if q.queue != [] {
      assert |q.accepted| > |Flatten(q.posted)|;
    }
  }

  /** An event still queued when the context ends is lost. */
  lemma ShutdownLosesQueue(e: Event)
    requires e.orgID != ""
    ensures var q := AfterAll(EMPTY, [Emitted(e), Done]); q.accepted == q.queue == [e] && q.posted == []
  {
    var schedule := [Emitted(e), Done];
    assert schedule[1..] == [Done];
  }

  /* ---- The logger ---- */

  function OrgScoped(events: seq<Event>): seq<Event> { Filter(events, (e: Event) => e.orgID != "") }

  lemma OrgScopedSnoc(lines: seq<Event>, e: Event)
    ensures OrgScoped(lines + [e]) == OrgScoped(lines) + (if e.orgID != "" then [e] else [])
  {
    FilterSnoc(lines, e, (e: Event) => e.orgID != "");
  }

  class Logger {
    var lines: seq<Event>     // what went to the writer
    const forwarder: Forwarder?

    /** Of the events written, the forwarder has seen exactly those of some organisation. */
    ghost predicate Valid()
      reads this, forwarder
    {
      forwarder != null ==>
        multiset(OrgScoped(lines)) == multiset(forwarder.accepted) + multiset(forwarder.dropped)
    }

    constructor (f: Forwarder?)
      requires f != null ==> f.Value() == EMPTY
      ensures Valid() && forwarder == f && lines == []
    {
      forwarder, lines := f, [];
    }

    method Emit(e: Event)
      requires Valid()
      modifies this, forwarder
      ensures Valid() && lines == old(lines) + [e]
      ensures forwarder != null ==>
                forwarder.Value()
                == if e.orgID == "" then old(forwarder.Value()) else Enqueued(old(forwarder.Value()), e)
    {
      hide OrgScoped;
      OrgScopedSnoc(lines, e);
      lines := lines + [e];
      if e.orgID == "" {
        return;
      }
      if forwarder != null {
        forwarder.Enqueue(e);
      }
    }
  }
}
