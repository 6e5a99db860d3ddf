/** loadOrCreateIdentity of cmd/agent/deviceid.go, run by any number of processes on one path.
    Each system call is one step; the steps of different calls interleave freely, writes may
    be partial, and write, sync and close may fail. */
module DeviceKey {
  import opened Prelude

  const SEED_SIZE := 32

  /** A file as the kernel sees it: it outlives its name while someone has it open. `meant` is
      the seed its creator generated for it (history, read by no step). */
  datatype Inode = Inode(content: Bytes, meant: Bytes)

  datatype Result = Loaded(seed: Bytes) | Created(seed: Bytes) | Failed

  /** Where one call stands. `ino` is the inode the call has open or created. */
  datatype Call =
    | Starting
    | Reading(ino: nat)                          // opened an existing file
    | Missing                                    // ENOENT: directory and seed come next
    | Ready(seed: Bytes)                         // has a fresh seed, about to O_EXCL-create
    | Writing(ino: nat, seed: Bytes, n: nat)     // n bytes written
    | Written(ino: nat, seed: Bytes)
    | Synced(ino: nat, seed: Bytes)
    | Abandoning(ino: nat)                       // failed; about to remove the path
    | Done(result: Result, file: Option<nat>)    // file: the one the identity came from

  datatype State = State(calls: seq<Call>, inodes: seq<Inode>, path: Option<nat>)

  datatype Action =
    | Call
    | Open(i: nat)
    | Read(i: nat)
    | ReadError(i: nat)
    | Generate(i: nat, seed: Bytes)
    | GenerateError(i: nat)
    | Create(i: nat)
    | CreateError(i: nat)
    | WriteSome(i: nat, more: nat)
    | Sync(i: nat)
    | Close(i: nat)
    | IOError(i: nat)
    | RemovePath(i: nat)
    | RemoveError(i: nat)

  function With(s: State, i: nat, c: Call): State
    requires i < |s.calls|
  {
    s.(calls := s.calls[i := c])
  }

  /** One step; None when the call is not at the right place for it. */
  function Next(s: State, a: Action): Option<State> {
    match a
    case Call => Some(s.(calls := s.calls + [Starting]))
    case Open(i) =>
      if !(i < |s.calls| && s.calls[i].Starting?) then None
      else if s.path.Some? then Some(With(s, i, Reading(s.path.value))) else Some(With(s, i, Missing))
    case Read(i) =>
      if !(i < |s.calls| && s.calls[i].Reading? && s.calls[i].ino < |s.inodes|) then None
      else
        var seed := s.inodes[s.calls[i].ino].content;
        Some(With(s, i, if |seed| == SEED_SIZE then Done(Loaded(seed), Some(s.calls[i].ino)) else Done(Failed, None)))
    case ReadError(i) =>
      if i < |s.calls| && (s.calls[i].Starting? || s.calls[i].Reading?)
      then Some(With(s, i, Done(Failed, None))) else None
    case Generate(i, seed) =>
      if i < |s.calls| && s.calls[i].Missing? && |seed| == SEED_SIZE then Some(With(s, i, Ready(seed))) else None
    case GenerateError(i) =>
      if i < |s.calls| && s.calls[i].Missing? then Some(With(s, i, Done(Failed, None))) else None
    case Create(i) =>
      if !(i < |s.calls| && s.calls[i].Ready?) then None
      else if s.path.Some? then Some(With(s, i, Done(Failed, None))) // O_EXCL
      else
        var n := |s.inodes|;
        Some(State(s.calls[i := Writing(n, s.calls[i].seed, 0)], s.inodes + [Inode([], s.calls[i].seed)], Some(n)))
    case CreateError(i) =>
      if i < |s.calls| && s.calls[i].Ready? then Some(With(s, i, Done(Failed, None))) else None
    case WriteSome(i, more) =>
      if !(i < |s.calls| && s.calls[i].Writing? && s.calls[i].ino < |s.inodes|
           && s.calls[i].n + more <= |s.calls[i].seed|) then None
      else
        var c := s.calls[i];
        var m := c.n + more;
        var t := s.(inodes := s.inodes[c.ino := s.inodes[c.ino].(content := c.seed[..m])]);
        Some(With(t, i, if m == |c.seed| then Written(c.ino, c.seed) else c.(n := m)))
    case Sync(i) =>
      if i < |s.calls| && s.calls[i].Written? then Some(With(s, i, Synced(s.calls[i].ino, s.calls[i].seed))) else None
    case Close(i) =>
      if i < |s.calls| && s.calls[i].Synced?
      then Some(With(s, i, Done(Created(s.calls[i].seed), Some(s.calls[i].ino)))) else None
    case IOError(i) =>
      if i < |s.calls| && (s.calls[i].Writing? || s.calls[i].Written? || s.calls[i].Synced?)
      then Some(With(s, i, Abandoning(s.calls[i].ino))) else None
    case RemovePath(i) =>
      if i < |s.calls| && s.calls[i].Abandoning?
      then Some(With(s, i, Done(Failed, None)).(path := None)) else None
    case RemoveError(i) => // ignored by the caller
      if i < |s.calls| && s.calls[i].Abandoning? then Some(With(s, i, Done(Failed, None))) else None
  }

  /** Before any call: no key file, or one left by an earlier life of the machine. */
  predicate Initial(s: State) {
    && s.calls == []
    && ((s.path == None && s.inodes == [])
        || (s.path == Some(0) && |s.inodes| == 1 && s.inodes[0].meant == s.inodes[0].content))
  }

  function Run(s: State, as_: seq<Action>): Option<State> {
    if as_ == [] then Some(s)
    else match Run(s, as_[..|as_| - 1])
      case None => None
      case Some(t) => Next(t, as_[|as_| - 1])
  }

  /* ---- The invariant ---- */

  /** The call holds the path: it created the file now there and has not given it up. */
  predicate Holds(c: Call) {
    c.Writing? || c.Written? || c.Synced? || c.Abandoning? || (c.Done? && c.result.Created?)
  }

  function File(c: Call): nat
    requires Holds(c)
  {
    if c.Done? then (if c.file.Some? then c.file.value else 0) else c.ino
  }

  /** What a holder has put in its file so far. */
  predicate FileMatches(c: Call, content: Bytes)
    requires Holds(c)
  {
    match c
    case Writing(_, seed, n) => n < |seed| == SEED_SIZE && content == seed[..n]
    case Written(_, seed) => |seed| == SEED_SIZE && content == seed
    case Synced(_, seed) => |seed| == SEED_SIZE && content == seed
    case Done(r, file) => file.Some? && |r.seed| == SEED_SIZE && content == r.seed
    case _ => true
  }

  predicate CallOk(s: State, c: Call) {
    && (Holds(c) ==> s.path == Some(File(c)) && File(c) < |s.inodes| && FileMatches(c, s.inodes[File(c)].content))
    && (c.Reading? ==> c.ino < |s.inodes|)
    && (c.Ready? ==> |c.seed| == SEED_SIZE)
  }

  ghost predicate Inv(s: State) {
    && (s.path.Some? ==> s.path.value < |s.inodes|)
    && (forall i :: 0 <= i < |s.calls| ==> CallOk(s, s.calls[i]))
    && (forall i, j :: 0 <= i < j < |s.calls| ==> !(Holds(s.calls[i]) && Holds(s.calls[j])))
  }

  /** What a step can do to the path: take it when it is free, or free it. */
  lemma PathStep(s: State, a: Action)
    requires Inv(s) && Next(s, a).Some?
    ensures var t := Next(s, a).value;
            && (t.path == s.path || (a.Create? && s.path.None?) || (a.RemovePath? && t.path.None?))
            && (t.path.Some? ==> t.path.value < |t.inodes|) && |s.inodes| <= |t.inodes|
            && |s.calls| <= |t.calls| && (a.Call? || (a.i < |s.calls| == |t.calls|))
  {
    hide CallOk;
  }

  lemma OwnStep(s: State, a: Action)
    requires Inv(s) && Next(s, a).Some? && !a.Call?
    ensures var t := Next(s, a).value;
            && a.i < |s.calls| == |t.calls| && CallOk(t, t.calls[a.i])
            && (Holds(t.calls[a.i]) ==> Holds(s.calls[a.i]) || s.path.None?)
  {
    assert CallOk(s, s.calls[a.i]);
  }

  lemma OtherStep(s: State, a: Action, j: nat)
    requires Inv(s) && Next(s, a).Some? && j < |s.calls| && (a.Call? || j != a.i)
    ensures var t := Next(s, a).value;
            j < |t.calls| && t.calls[j] == s.calls[j] && CallOk(t, t.calls[j])
  {
    assert CallOk(s, s.calls[j]);
    if !a.Call? {
      assert CallOk(s, s.calls[a.i]);
      assert !(Holds(s.calls[a.i]) && Holds(s.calls[j])) by {
        assert a.i < j || j < a.i;
      }
    }
  }

  lemma InvStep(s: State, a: Action)
    requires Inv(s) && Next(s, a).Some?
    ensures Inv(Next(s, a).value)
  {
    hide Next, CallOk;
    var t := Next(s, a).value;
    PathStep(s, a);
    if !a.Call? {
      OwnStep(s, a);
    } else {
      NewCall(s);
    }
    forall j | 0 <= j < |s.calls| && (a.Call? || j != a.i)
      ensures t.calls[j] == s.calls[j] && CallOk(t, t.calls[j]) && (Holds(t.calls[j]) ==> s.path.Some?)
    {
      OtherStep(s, a, j);
      if Holds(s.calls[j]) {
        HolderHasPath(s, j);
      }
    }
  }

  lemma NewCall(s: State)
    ensures Next(s, Call).value.calls == s.calls + [Starting] && CallOk(Next(s, Call).value, Starting)
  {
  }

  lemma HolderHasPath(s: State, j: nat)
    requires Inv(s) && j < |s.calls| && Holds(s.calls[j])
    ensures s.path.Some?
  {
    assert CallOk(s, s.calls[j]);
  }

  lemma {:induction false} RunInv(s: State, as_: seq<Action>)
    requires Initial(s) && Run(s, as_).Some?
    ensures Inv(Run(s, as_).value)
  {
    if as_ != [] {
      RunInv(s, as_[..|as_| - 1]);
      InvStep(Run(s, as_[..|as_| - 1]).value, as_[|as_| - 1]);
    }
  }

  /* ---- Main results ---- */

  predicate HasCreated(c: Call) { c.Done? && c.result.Created? }

  /** In every interleaving at most one call returns created = true, and then the key file
      holds that call's seed. */
  lemma AtMostOneCreated(s: State, as_: seq<Action>)
    requires Initial(s) && Run(s, as_).Some?
    ensures var t := Run(s, as_).value;
            && (forall i, j :: 0 <= i < j < |t.calls| ==> !(HasCreated(t.calls[i]) && HasCreated(t.calls[j])))
            && (forall i :: 0 <= i < |t.calls| && HasCreated(t.calls[i]) ==>
                  t.path.Some? && t.path.value < |t.inodes|
                  && t.inodes[t.path.value].content == t.calls[i].result.seed)
  {
    RunInv(s, as_);
    var t := Run(s, as_).value;
    forall i | 0 <= i < |t.calls| && HasCreated(t.calls[i])
      ensures t.path.Some? && t.path.value < |t.inodes|
              && t.inodes[t.path.value].content == t.calls[i].result.seed
    {
      assert CallOk(t, t.calls[i]);
    }
  }

  /** A call that looked for the file only after call i had created it. */
  predicate SawCreated(c: Call, file: nat, seed: Bytes) {
    c.Starting? || c == Reading(file) || (c.Done? && (c.result == Loaded(seed) || c.result.Failed?))
  }

  /** From the moment call i has created the key: the path and the file no longer change,
      and every call that opens the path from then on can only load that same seed or fail. */
  ghost predicate Settled(s: State, i: nat, file: nat, seed: Bytes, late: set<nat>) {
    && i < |s.calls| && s.calls[i] == Done(Created(seed), Some(file))
    && s.path == Some(file) && file < |s.inodes| && s.inodes[file].content == seed
    && (forall j :: j in late && j < |s.calls| ==> SawCreated(s.calls[j], file, seed))
  }

  lemma SettledStep(s: State, a: Action, i: nat, file: nat, seed: Bytes, late: set<nat>)
    requires Inv(s) && Settled(s, i, file, seed, late) && Next(s, a).Some?
    requires |seed| == SEED_SIZE
    ensures Settled(Next(s, a).value, i, file, seed, late)
  {
    var t := Next(s, a).value;
    assert CallOk(s, s.calls[i]);
    if !a.Call? {
      assert CallOk(s, s.calls[a.i]);
      assert a.i != i;
    }
  }

  lemma {:induction false} SettledForever(s: State, as_: seq<Action>, i: nat, file: nat, seed: Bytes, late: set<nat>)
    requires Inv(s) && Settled(s, i, file, seed, late) && Run(s, as_).Some? && |seed| == SEED_SIZE
    ensures Inv(Run(s, as_).value) && Settled(Run(s, as_).value, i, file, seed, late)
  {
    if as_ != [] {
      SettledForever(s, as_[..|as_| - 1], i, file, seed, late);
      var t := Run(s, as_[..|as_| - 1]).value;
      InvStep(t, as_[|as_| - 1]);
      SettledStep(t, as_[|as_| - 1], i, file, seed, late);
    }
  }

  /** Once created = true has been returned, in every continuation the path still names the
      same file with the same seed, and every call that had not yet looked for the file then
      (or starts later) and returns an identity returns that seed, with created = false. */
  lemma EveryLaterLoadAgrees(s: State, before: seq<Action>, after: seq<Action>, i: nat, j: nat)
    requires Initial(s) && Run(s, before).Some? && Run(Run(s, before).value, after).Some?
    requires i < |Run(s, before).value.calls| && HasCreated(Run(s, before).value.calls[i])
    requires j < |Run(Run(s, before).value, after).value.calls|
    requires j < |Run(s, before).value.calls| ==> Run(s, before).value.calls[j].Starting?
    ensures var mid, end := Run(s, before).value, Run(Run(s, before).value, after).value;
            var seed := mid.calls[i].result.seed;
            && end.path == mid.path && end.path.Some? && end.path.value < |end.inodes|
            && end.inodes[end.path.value].content == seed
            && (end.calls[j].Done? ==> end.calls[j].result == Loaded(seed) || end.calls[j].result.Failed?)
  {
    var mid := Run(s, before).value;
    RunInv(s, before);
    assert CallOk(mid, mid.calls[i]);
    SettledForever(mid, after, i, File(mid.calls[i]), mid.calls[i].result.seed, {j});
  }

  /* ---- When all of them agree ---- */

  predicate Identity(c: Call) { c.Done? && !c.result.Failed? }

  /** The step removes a key file that was already complete. */
  predicate Discards(s: State, a: Action) {
    && a.RemovePath? && a.i < |s.calls| && s.calls[a.i].Abandoning? && s.calls[a.i].ino < |s.inodes|
    && |s.inodes[s.calls[a.i].ino].content| == SEED_SIZE
  }

  /** A sync or close failed after the whole seed had been written. */
  predicate LateFailure(s: State, a: Action) {
    a.IOError? && a.i < |s.calls| && (s.calls[a.i].Written? || s.calls[a.i].Synced?)
  }

  /** Step n of the run is of this kind. */
  ghost predicate Occurs(s: State, as_: seq<Action>, n: nat, kind: (State, Action) -> bool) {
    n < |as_| && Run(s, as_[..n]).Some? && kind(Run(s, as_[..n]).value, as_[n])
  }

  ghost predicate Never(s: State, as_: seq<Action>, kind: (State, Action) -> bool) {
    forall n: nat :: !Occurs(s, as_, n, kind)
  }

  lemma NeverBefore(s: State, as_: seq<Action>, kind: (State, Action) -> bool)
    requires as_ != [] && Never(s, as_, kind) && Run(s, as_).Some?
    ensures Never(s, as_[..|as_| - 1], kind) && !kind(Run(s, as_[..|as_| - 1]).value, as_[|as_| - 1])
  {
    hide Next;
    var front := as_[..|as_| - 1];
    forall n: nat
      ensures !Occurs(s, front, n, kind)
    {
      if n < |front| {
        assert front[..n] == as_[..n];
        assert !Occurs(s, as_, n, kind);
      }
    }
    assert !Occurs(s, as_, |as_| - 1, kind);
  }

  /** Every identity returned so far is what the file at the path holds, and a call still
      reading another file will not find a key in it. */
  ghost predicate Agreed(s: State) {
    forall i :: 0 <= i < |s.calls| ==> AgreedCall(s, s.calls[i])
  }

  predicate AgreedCall(s: State, c: Call) {
    && (Identity(c) ==> s.path.Some? && s.path.value < |s.inodes| && |c.result.seed| == SEED_SIZE
                        && s.inodes[s.path.value].content == c.result.seed)
    && (c.Reading? && s.path != Some(c.ino) ==> c.ino < |s.inodes| && |s.inodes[c.ino].content| != SEED_SIZE)
  }

  lemma AgreedStep(s: State, a: Action)
    requires Inv(s) && Agreed(s) && Next(s, a).Some? && !Discards(s, a)
    ensures Agreed(Next(s, a).value)
  {
    var t := Next(s, a).value;
    if a.Call? {
      forall j | 0 <= j < |t.calls|
        ensures AgreedCall(t, t.calls[j])
      {
        assert j < |s.calls| ==> AgreedCall(s, s.calls[j]);
      }
    } else {
      assert CallOk(s, s.calls[a.i]) && AgreedCall(s, s.calls[a.i]);
      forall j | 0 <= j < |t.calls|
        ensures AgreedCall(t, t.calls[j])
      {
        assert CallOk(s, s.calls[j]) && AgreedCall(s, s.calls[j]);
      }
    }
  }

  lemma {:induction false} RunAgrees(s: State, as_: seq<Action>)
    requires Initial(s) && Run(s, as_).Some? && Never(s, as_, Discards)
    ensures Agreed(Run(s, as_).value)
  {
    hide Next, Discards, Agreed;
    if as_ == [] {
      NobodyYet(s);
    } else {
      NeverBefore(s, as_, Discards);
      RunAgrees(s, as_[..|as_| - 1]);
      RunInv(s, as_[..|as_| - 1]);
      AgreedStep(Run(s, as_[..|as_| - 1]).value, as_[|as_| - 1]);
    }
  }

  lemma NobodyYet(s: State)
    requires s.calls == []
    ensures Agreed(s)
  {
  }

  /** Unless a complete key file is removed, every identity ever returned, loaded or created,
      whenever the call began, carries the same seed: the one on disk. So two calls that
      disagree need such a removal. */
  lemma AllAgreeUnlessDiscarded(s: State, as_: seq<Action>, i: nat, j: nat)
    requires Initial(s) && Run(s, as_).Some?
    requires i < |Run(s, as_).value.calls| && Identity(Run(s, as_).value.calls[i])
    requires j < |Run(s, as_).value.calls| && Identity(Run(s, as_).value.calls[j])
    ensures var t := Run(s, as_).value;
            || (exists n: nat :: Occurs(s, as_, n, Discards))
            || (t.calls[i].result.seed == t.calls[j].result.seed
                && t.path.Some? && t.path.value < |t.inodes|
                && t.inodes[t.path.value].content == t.calls[i].result.seed)
  {
    hide Next, Run, Discards;
    if Never(s, as_, Discards) {
      RunAgrees(s, as_);
      var t := Run(s, as_).value;
      assert AgreedCall(t, t.calls[i]) && AgreedCall(t, t.calls[j]);
    }
  }

  /** A call that abandons an incomplete file leaves it incomplete. */
  ghost predicate Incomplete(s: State) {
    forall i :: 0 <= i < |s.calls| ==> IncompleteCall(s, s.calls[i])
  }

  predicate IncompleteCall(s: State, c: Call) {
    c.Abandoning? && c.ino < |s.inodes| ==> |s.inodes[c.ino].content| != SEED_SIZE
  }

  lemma IncompleteStep(s: State, a: Action)
    requires Inv(s) && Incomplete(s) && Next(s, a).Some? && !LateFailure(s, a)
    ensures Incomplete(Next(s, a).value)
  {
    var t := Next(s, a).value;
    if a.Call? {
      forall j | 0 <= j < |t.calls|
        ensures IncompleteCall(t, t.calls[j])
      {
        assert j < |s.calls| ==> IncompleteCall(s, s.calls[j]);
      }
    } else {
      assert CallOk(s, s.calls[a.i]) && IncompleteCall(s, s.calls[a.i]);
      forall j | 0 <= j < |t.calls|
        ensures IncompleteCall(t, t.calls[j])
      {
        assert CallOk(s, s.calls[j]) && IncompleteCall(s, s.calls[j]);
      }
    }
  }

  lemma {:induction false} NoDiscardWithoutLateFailure(s: State, as_: seq<Action>)
    requires Initial(s) && Run(s, as_).Some? && Never(s, as_, LateFailure)
    ensures Never(s, as_, Discards) && Incomplete(Run(s, as_).value)
  {
    hide Next, Discards, LateFailure, Incomplete;
    if as_ == [] {
      assert Incomplete(s) by { NothingAbandoned(s); }
    } else {
      var front, last := as_[..|as_| - 1], as_[|as_| - 1];
      NeverBefore(s, as_, LateFailure);
      NoDiscardWithoutLateFailure(s, front);
      RunInv(s, front);
      IncompleteStep(Run(s, front).value, last);
      IncompleteKept(Run(s, front).value, last);
      forall n: nat
        ensures !Occurs(s, as_, n, Discards)
      {
        if n < |front| {
          assert front[..n] == as_[..n];
          assert !Occurs(s, front, n, Discards);
        }
      }
    }
  }

  lemma NothingAbandoned(s: State)
    requires s.calls == []
    ensures Incomplete(s)
  {
  }

  lemma IncompleteKept(s: State, a: Action)
    requires Incomplete(s)
    ensures !Discards(s, a)
  {
    assert Discards(s, a) ==> IncompleteCall(s, s.calls[a.i]);
  }

  /** In particular every disagreement needs a sync or close that failed after the whole seed
      was written. */
  lemma DisagreementNeedsLateFailure(s: State, as_: seq<Action>, i: nat, j: nat)
    requires Initial(s) && Run(s, as_).Some?
    requires i < |Run(s, as_).value.calls| && Identity(Run(s, as_).value.calls[i])
    requires j < |Run(s, as_).value.calls| && Identity(Run(s, as_).value.calls[j])
    requires Run(s, as_).value.calls[i].result.seed != Run(s, as_).value.calls[j].result.seed
    ensures exists n: nat :: Occurs(s, as_, n, LateFailure)
  {
    hide Next, Run, Discards, LateFailure;
    if Never(s, as_, LateFailure) {
      NoDiscardWithoutLateFailure(s, as_);
      AllAgreeUnlessDiscarded(s, as_, i, j);
    }
  }

  /** Such a removal does happen. A load that ran while the creator was still syncing can
      return a seed that the creator then gives up, after which another call creates a
      different key: the loaded identity is not the one on disk. */
  lemma EarlyLoadCanDisagree(a: Bytes, b: Bytes)
    requires |a| == |b| == SEED_SIZE && a != b
    ensures exists as_ :: Run(State([], [], None), as_).Some?
                          && EarlyLoad(Run(State([], [], None), as_).value, a, b)
  {
    var first, second := GiveUp(a), CreateAnew(b);
    LoadThenGiveUp(a);
    CreateAfter(Run(State([], [], None), first).value, a, b);
    RunConcat(State([], [], None), first, second);
  }

  predicate EarlyLoad(t: State, a: Bytes, b: Bytes) {
    |t.calls| == 3 && t.calls[1] == Done(Loaded(a), Some(0)) && t.calls[2] == Done(Created(b), Some(1))
  }

  function GiveUp(a: Bytes): seq<Action> {
    [Call, Open(0), Generate(0, a), Create(0), WriteSome(0, SEED_SIZE),
     Call, Open(1), Read(1), IOError(0), RemovePath(0)]
  }

  function CreateAnew(b: Bytes): seq<Action> {
    [Call, Open(2), Generate(2, b), Create(2), WriteSome(2, SEED_SIZE), Sync(2), Close(2)]
  }

  lemma {:induction false} RunConcat(s: State, as_: seq<Action>, bs: seq<Action>)
    requires Run(s, as_).Some?
    ensures Run(s, as_ + bs) == Run(Run(s, as_).value, bs)
  {
    hide Next;
    if bs == [] {
      assert as_ + bs == as_;
    } else {
      assert (as_ + bs)[..|as_ + bs| - 1] == as_ + bs[..|bs| - 1];
      RunConcat(s, as_, bs[..|bs| - 1]);
    }
  }

  lemma WriteAll(a: Bytes) returns (s5: State)
    requires |a| == SEED_SIZE
    ensures Run(State([], [], None), GiveUp(a)[..5]) == Some(s5)
    ensures s5 == State([Written(0, a)], [Inode(a, a)], Some(0))
  {
    hide Run;
    assert a[..SEED_SIZE] == a;
    var s0, as_ := State([], [], None), GiveUp(a);
    NoSteps(s0, as_);
    var s1 := Step(s0, as_, 0, s0);
    var s2 := Step(s0, as_, 1, s1);
    var s3 := Step(s0, as_, 2, s2);
    var s4 := Step(s0, as_, 3, s3);
    s5 := Step(s0, as_, 4, s4);
    assert s5.calls == [Written(0, a)] && s5.inodes == [Inode(a, a)];
  }

  lemma LoadThenGiveUp(a: Bytes)
    requires |a| == SEED_SIZE
    ensures Run(State([], [], None), GiveUp(a)).Some?
    ensures var t := Run(State([], [], None), GiveUp(a)).value;
            t.path == None && |t.calls| == 2 && |t.inodes| == 1 && t.calls[1] == Done(Loaded(a), Some(0))
  {
    hide Run;
    var s0, as_ := State([], [], None), GiveUp(a);
    var s5 := WriteAll(a);
    var s6 := Step(s0, as_, 5, s5);
    var s7 := Step(s0, as_, 6, s6);
    var s8 := Step(s0, as_, 7, s7);
    assert s8.calls == [Written(0, a), Done(Loaded(a), Some(0))];
    var s9 := Step(s0, as_, 8, s8);
    var s10 := Step(s0, as_, 9, s9);
    assert as_[..10] == as_;
  }

  lemma CreateAfter(s0: State, a: Bytes, b: Bytes)
    requires |b| == SEED_SIZE && s0.path == None && |s0.calls| == 2 && |s0.inodes| == 1
    requires s0.calls[1] == Done(Loaded(a), Some(0))
    ensures Run(s0, CreateAnew(b)).Some? && EarlyLoad(Run(s0, CreateAnew(b)).value, a, b)
  {
    hide Run;
    assert b[..SEED_SIZE] == b;
    var as_ := CreateAnew(b);
    NoSteps(s0, as_);
    var s1 := Step(s0, as_, 0, s0);
    var s2 := Step(s0, as_, 1, s1);
    var s3 := Step(s0, as_, 2, s2);
    var s4 := Step(s0, as_, 3, s3);
    assert s4.calls[2] == Writing(1, b, 0) && |s4.inodes| == 2;
    var s5 := Step(s0, as_, 4, s4);
    var s6 := Step(s0, as_, 5, s5);
    var s7 := Step(s0, as_, 6, s6);
    assert as_[..7] == as_;
  }

  lemma NoSteps(s0: State, as_: seq<Action>)
    ensures Run(s0, as_[..0]) == Some(s0)
  {
  }

  lemma Step(s0: State, as_: seq<Action>, n: nat, s: State) returns (t: State)
    requires n < |as_| && Run(s0, as_[..n]) == Some(s) && Next(s, as_[n]).Some?
    ensures t == Next(s, as_[n]).value && Run(s0, as_[..n + 1]) == Some(t)
  {
    assert as_[..n + 1][..n] == as_[..n];
    t := Next(s, as_[n]).value;
  }
}
