/** Which of the identities that loadOrCreateIdentity of cmd/agent/deviceid.go returned is the
    one on disk in the end: exactly those whose file was never removed by its creator. */
module KeyFate {
  import opened Prelude
  import opened DeviceKey

  /** The step removes the path on behalf of the call that is giving up file x. */
  predicate Removes(s: State, a: Action, x: nat) {
    a.RemovePath? && a.i < |s.calls| && s.calls[a.i] == Abandoning(x)
  }

  ghost predicate RemovedAt(s: State, as_: seq<Action>, n: nat, x: nat) {
    n < |as_| && Run(s, as_[..n]).Some? && Removes(Run(s, as_[..n]).value, as_[n], x)
  }

  /** In the course of the run file x was removed by the call that had created it. */
  ghost predicate Removed(s: State, as_: seq<Action>, x: nat) {
    exists n: nat :: RemovedAt(s, as_, n, x)
  }

  lemma RemovedSnoc(s: State, as_: seq<Action>, x: nat)
    requires as_ != [] && Run(s, as_).Some?
    ensures var front := as_[..|as_| - 1];
            Removed(s, as_, x)
            <==> Removed(s, front, x) || Removes(Run(s, front).value, as_[|as_| - 1], x)
  {
    hide Next, Removes;
    var front := as_[..|as_| - 1];
    assert forall n: nat :: n < |front| ==> front[..n] == as_[..n];
    if Removed(s, as_, x) {
      var n: nat :| RemovedAt(s, as_, n, x);
      assert n < |front| ==> RemovedAt(s, front, n, x);
    }
    if Removed(s, front, x) {
      var n: nat :| RemovedAt(s, front, n, x);
      assert RemovedAt(s, as_, n, x);
    }
    if Removes(Run(s, front).value, as_[|as_| - 1], x) {
      assert RemovedAt(s, as_, |front|, x);
    }
  }

  /* ---- Steps ---- */

  /** What one step does to the path and to the files. */
  lemma FileStep(s: State, a: Action, x: nat)
    requires Inv(s) && Next(s, a).Some?
    ensures var t := Next(s, a).value;
            && (x < |s.inodes| ==>
                  && x < |t.inodes| && t.inodes[x].meant == s.inodes[x].meant
                  && (t.path == Some(x) <==> s.path == Some(x) && !Removes(s, a, x))
                  && (|s.inodes[x].content| == SEED_SIZE ==> t.inodes[x] == s.inodes[x]))
            && (|s.inodes| <= x < |t.inodes| ==> t.path == Some(x) && t.inodes[x].content == [] && !Removes(s, a, x))
            && (Removes(s, a, x) ==> x < |s.inodes|)
  {
    if !a.Call? {
      assert CallOk(s, s.calls[a.i]);
    }
  }

  /** A file is at the path exactly until its creator removes it. */
  lemma {:induction false} AtPathIff(s: State, as_: seq<Action>, x: nat)
    requires Initial(s) && Run(s, as_).Some?
    ensures x < |Run(s, as_).value.inodes| ==> (Run(s, as_).value.path == Some(x) <==> !Removed(s, as_, x))
    ensures x >= |Run(s, as_).value.inodes| ==> !Removed(s, as_, x)
  {
    hide Next, Removes;
    if as_ != [] {
      var front := as_[..|as_| - 1];
      AtPathIff(s, front, x);
      RunInv(s, front);
      FileStep(Run(s, front).value, as_[|as_| - 1], x);
      RemovedSnoc(s, as_, x);
    }
  }

  /** A file that holds a whole seed never changes again, removed or not. */
  lemma {:induction false} CompleteFileFixed(s: State, as_: seq<Action>, x: nat)
    requires Inv(s) && Run(s, as_).Some? && x < |s.inodes| && |s.inodes[x].content| == SEED_SIZE
    ensures Inv(Run(s, as_).value)
    ensures x < |Run(s, as_).value.inodes| && Run(s, as_).value.inodes[x] == s.inodes[x]
  {
    hide Next;
    if as_ != [] {
      var front := as_[..|as_| - 1];
      CompleteFileFixed(s, front, x);
      InvStep(Run(s, front).value, as_[|as_| - 1]);
      FileStep(Run(s, front).value, as_[|as_| - 1], x);
    }
  }

  /* ---- Where identities come from ---- */

  /** Every identity is the whole content of the file it came from; every file holds a part of
      the seed meant for it, and no other. */
  ghost predicate Sourced(s: State) {
    && (forall i :: 0 <= i < |s.calls| ==> SourcedCall(s, s.calls[i]))
    && (forall x :: 0 <= x < |s.inodes| ==> SourcedFile(s.inodes[x]))
  }

  predicate SourcedFile(f: Inode) {
    f.content <= f.meant && (|f.meant| == SEED_SIZE || f.content == f.meant)
  }

  predicate SourcedCall(s: State, c: Call) {
    && (Identity(c) ==> c.file.Some? && c.file.value < |s.inodes| && |c.result.seed| == SEED_SIZE
                        && s.inodes[c.file.value].content == c.result.seed)
    && (c.Writing? || c.Written? || c.Synced? ==> c.ino < |s.inodes| && s.inodes[c.ino].meant == c.seed)
  }

  lemma SourcedStep(s: State, a: Action)
    requires Inv(s) && Sourced(s) && Next(s, a).Some?
    ensures Sourced(Next(s, a).value)
  {
    var t := Next(s, a).value;
    forall j | 0 <= j < |t.calls|
      ensures SourcedCall(t, t.calls[j])
    {
      if a.Call? {
        assert j < |s.calls| ==> SourcedCall(s, s.calls[j]);
      } else {
        assert CallOk(s, s.calls[a.i]) && SourcedCall(s, s.calls[a.i]);
        assert CallOk(s, s.calls[j]) && SourcedCall(s, s.calls[j]);
      }
    }
    SourcedFiles(s, a);
  }

  lemma SourcedFiles(s: State, a: Action)
    requires Inv(s) && Sourced(s) && Next(s, a).Some?
    ensures var t := Next(s, a).value; forall x :: 0 <= x < |t.inodes| ==> SourcedFile(t.inodes[x])
  {
    var t := Next(s, a).value;
    forall x | 0 <= x < |t.inodes|
      ensures SourcedFile(t.inodes[x])
    {
      assert x < |s.inodes| ==> SourcedFile(s.inodes[x]);
      if !a.Call? {
        assert CallOk(s, s.calls[a.i]) && SourcedCall(s, s.calls[a.i]);
      }
    }
  }

  lemma {:induction false} RunSourced(s: State, as_: seq<Action>)
    requires Initial(s) && Run(s, as_).Some?
    ensures Sourced(Run(s, as_).value)
  {
    hide Next, Sourced;
    if as_ == [] {
      NothingReturned(s);
    } else {
      RunSourced(s, as_[..|as_| - 1]);
      RunInv(s, as_[..|as_| - 1]);
      SourcedStep(Run(s, as_[..|as_| - 1]).value, as_[|as_| - 1]);
    }
  }

  lemma NothingReturned(s: State)
    requires Initial(s)
    ensures Sourced(s)
  {
  }

  /* ---- Main results ---- */

  /** No two files were meant to hold the same seed: what 32 random octets are for. */
  ghost predicate DistinctSeeds(t: State) {
    forall x, y :: 0 <= x < y < |t.inodes| ==> t.inodes[x].meant != t.inodes[y].meant
  }

  predicate OnDisk(t: State, seed: Bytes) {
    t.path.Some? && t.path.value < |t.inodes| && t.inodes[t.path.value].content == seed
  }

  /** An identity, loaded or created, still has its file, unchanged, at the path exactly when
      that file was never removed; and with distinct seeds that is exactly when the seed on
      disk is its own. A created one's never was. */
  lemma OnDiskIff(s: State, as_: seq<Action>, i: nat)
    requires Initial(s) && Run(s, as_).Some?
    requires i < |Run(s, as_).value.calls| && Identity(Run(s, as_).value.calls[i])
    ensures var t := Run(s, as_).value;
            var c := t.calls[i];
            && c.file.Some? && c.file.value < |t.inodes| && t.inodes[c.file.value].content == c.result.seed
            && |c.result.seed| == 32
            && (t.path == c.file <==> !Removed(s, as_, c.file.value))
            && (DistinctSeeds(t) ==> (OnDisk(t, c.result.seed) <==> !Removed(s, as_, c.file.value)))
            && (HasCreated(c) ==> !Removed(s, as_, c.file.value))
  {
    hide Next, Run, FileMatches;
    RunInv(s, as_);
    RunSourced(s, as_);
    var t := Run(s, as_).value;
    var c := t.calls[i];
    assert SourcedCall(t, c);
    AtPathIff(s, as_, c.file.value);
    if HasCreated(c) {
      assert CallOk(t, c);
    }
    if DistinctSeeds(t) && OnDisk(t, c.result.seed) && t.path != c.file {
      DistinctContents(t, t.path.value, c.file.value);
    }
  }

  /** A call that has opened a key file loads it exactly if it holds 32 bytes then; a file of any
      other size is refused. */
  lemma LoadedIffWhole(s: State, as_: seq<Action>, i: nat)
    requires Initial(s) && Run(s, as_).Some? && i < |Run(s, as_).value.calls| && Run(s, as_).value.calls[i].Reading?
    ensures var t := Run(s, as_).value;
            && t.calls[i].ino < |t.inodes| && Next(t, Read(i)).Some?
            && var content := t.inodes[t.calls[i].ino].content;
            Next(t, Read(i)).value
            == t.(calls := t.calls[i := if |content| == 32 then Done(Loaded(content), Some(t.calls[i].ino))
                                        else Done(Failed, None)])
  {
    hide Run;
    RunInv(s, as_);
    assert CallOk(Run(s, as_).value, Run(s, as_).value.calls[i]);
  }

  /** Different files with the whole of their seeds hold different ones. */
  lemma DistinctContents(t: State, x: nat, y: nat)
    requires Sourced(t) && DistinctSeeds(t) && x < |t.inodes| && y < |t.inodes| && x != y
    requires |t.inodes[x].content| == |t.inodes[y].content| == SEED_SIZE
    ensures t.inodes[x].content != t.inodes[y].content
  {
    assert SourcedFile(t.inodes[x]) && SourcedFile(t.inodes[y]);
    assert x < y || y < x;
  }

  /** The older of the files two identities came from. */
  function Older(c: Call, d: Call): nat
    requires Identity(c) && Identity(d) && c.file.Some? && d.file.Some?
  {
    if c.file.value < d.file.value then c.file.value else d.file.value
  }

  /** With distinct seeds, two identities disagree exactly when they come from different files,
      and then the older of the two files was removed although it was complete. */
  lemma DisagreeIff(s: State, as_: seq<Action>, i: nat, j: nat)
    requires Initial(s) && Run(s, as_).Some? && DistinctSeeds(Run(s, as_).value)
    requires i < |Run(s, as_).value.calls| && Identity(Run(s, as_).value.calls[i])
    requires j < |Run(s, as_).value.calls| && Identity(Run(s, as_).value.calls[j])
    ensures var c, d := Run(s, as_).value.calls[i], Run(s, as_).value.calls[j];
            && c.file.Some? && d.file.Some?
            && (c.result.seed != d.result.seed <==> c.file != d.file)
            && (c.file != d.file ==> Removed(s, as_, Older(c, d)))
  {
    hide Next, Run, Removed;
    RunInv(s, as_);
    RunSourced(s, as_);
    var t := Run(s, as_).value;
    var c, d := t.calls[i], t.calls[j];
    assert SourcedCall(t, c) && SourcedCall(t, d);
    if c.file != d.file {
      DistinctContents(t, c.file.value, d.file.value);
      OnlyNewestStays(s, as_, Older(c, d), if c.file.value < d.file.value then d.file.value else c.file.value);
    }
  }

  /** A file with a newer one has been removed. */
  lemma {:induction false} OnlyNewestStays(s: State, as_: seq<Action>, x: nat, y: nat)
    requires Initial(s) && Run(s, as_).Some? && x < y < |Run(s, as_).value.inodes|
    ensures Removed(s, as_, x)
  {
    hide Next, Removes, Removed;
    var front := as_[..|as_| - 1];
    RunInv(s, front);
    AtPathIff(s, front, x);
    FileStep(Run(s, front).value, as_[|as_| - 1], x);
    FileStep(Run(s, front).value, as_[|as_| - 1], y);
    RemovedSnoc(s, as_, x);
    if y < |Run(s, front).value.inodes| {
      OnlyNewestStays(s, front, x, y);
    }
  }
}
