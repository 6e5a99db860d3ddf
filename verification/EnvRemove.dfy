/** removeEnvKey of cmd/agent/deviceid.go, and how it commutes with loading. */
module EnvRemove {
  import opened Prelude
  import opened Text
  import opened EnvFile
  import opened EnvRoundTrip

  /** The line literally begins `key=`. */
  predicate Starts(line: string, key: string) { key + "=" <= line }

  function Kept(ls: seq<string>, key: string): seq<string> { Filter(ls, l => !Starts(l, key)) }

  /** Content of the file after removeEnvKey. */
  function Remove(content: string, key: string): string { Join(Kept(Split(content), key)) }

  ghost predicate SomeStarts(ls: seq<string>, key: string) {
    exists i :: 0 <= i < |ls| && Starts(ls[i], key)
  }

  /** The removing loop. The file is rewritten only when a line was dropped. */
  method RemoveEnvKey(original: string, key: string) returns (content: string, rewritten: bool)
    ensures content == Remove(original, key)
    ensures rewritten <==> SomeStarts(Split(original), key)
    ensures !rewritten ==> content == original
  {
    hide Split, Join, Starts;
    var lines := Split(original);
    var kept: seq<string> := [];
    rewritten := false;
    for i := 0 to |lines|
      invariant kept == Kept(lines[..i], key)
      invariant rewritten <==> SomeStarts(lines[..i], key)
      invariant !rewritten ==> kept == lines[..i]
    {
      KeptStep(lines, i, key);
      if Starts(lines[i], key) {
        rewritten := true;
      } else {
        kept := kept + [lines[i]];
      }
    }
    assert lines[..|lines|] == lines;
    SplitLines(original);
    content := if rewritten then Join(kept) else original;
  }

  lemma KeptStep(ls: seq<string>, i: nat, key: string)
    requires i < |ls|
    ensures ls[..i + 1] == ls[..i] + [ls[i]]
    ensures Kept(ls[..i + 1], key) == Kept(ls[..i], key) + (if Starts(ls[i], key) then [] else [ls[i]])
    ensures SomeStarts(ls[..i + 1], key) <==> SomeStarts(ls[..i], key) || Starts(ls[i], key)
  {
    hide Starts;
    assert ls[..i + 1] == ls[..i] + [ls[i]];
    FilterSnoc(ls[..i], ls[i], l => !Starts(l, key));
    assert ls[..i + 1][i] == ls[i];
    assert forall j :: 0 <= j < i ==> ls[..i + 1][j] == ls[..i][j];
  }

  /* ---- On any content ---- */

  lemma {:induction false} KeptIsOneLine(ls: seq<string>, key: string)
    requires AllOneLine(ls)
    ensures AllOneLine(Kept(ls, key))
    ensures forall i :: 0 <= i < |Kept(ls, key)| ==> !Starts(Kept(ls, key)[i], key)
  {
    FilterMembers(ls, l => !Starts(l, key));
    assert forall i :: 0 <= i < |Kept(ls, key)| ==> Kept(ls, key)[i] in Kept(ls, key);
  }

  /** The surviving lines are the original ones, unchanged and in order, and none of them
      begins `key=`. (Dropping every line leaves the empty file, whose one line is empty.) */
  lemma SurvivingLines(content: string, key: string)
    ensures var kept := Kept(Split(content), key);
            Split(Remove(content, key)) == if kept == [] then [""] else kept
    ensures forall i :: 0 <= i < |Split(Remove(content, key))| ==> !Starts(Split(Remove(content, key))[i], key)
  {
    SplitLines(content);
    KeptIsOneLine(Split(content), key);
    var kept := Kept(Split(content), key);
    if kept != [] {
      SplitJoin(kept);
    }
  }

  lemma {:induction false} NothingToDrop(ls: seq<string>, key: string)
    requires forall i :: 0 <= i < |ls| ==> !Starts(ls[i], key)
    ensures Kept(ls, key) == ls
  {
    if ls != [] {
      NothingToDrop(ls[..|ls| - 1], key);
      assert ls == ls[..|ls| - 1] + [ls[|ls| - 1]];
    }
  }

  /** Removing a key again changes nothing. */
  lemma RemoveIdempotent(content: string, key: string)
    ensures Remove(Remove(content, key), key) == Remove(content, key)
  {
    hide Split, Join, Starts, Kept;
    var once := Remove(content, key);
    SurvivingLines(content, key);
    NothingToDrop(Split(once), key);
    SplitLines(once);
  }

  /* ---- Against the loader ---- */

  /** The line binds this key. */
  predicate Binds(line: string, key: string) {
    ParseLine(line).Some? && ParseLine(line).value.0 == key
  }

  lemma {:induction false} BindsIff(ls: seq<string>, key: string)
    ensures key in AssignAll(ls) <==> exists i :: 0 <= i < |ls| && Binds(ls[i], key)
  {
    hide ParseLine;
    if ls != [] {
      var front := ls[..|ls| - 1];
      BindsIff(front, key);
      if key in AssignAll(ls) && !Binds(ls[|ls| - 1], key) {
        var i :| 0 <= i < |front| && Binds(front[i], key);
        assert Binds(ls[i], key);
      }
      if i :| 0 <= i < |ls| && Binds(ls[i], key) {
        assert i < |front| ==> Binds(front[i], key);
      }
    }
  }

  lemma AssignApart(a: Env, b: Env, line: string, key: string)
    requires a - {key} == b - {key}
    ensures Assign(a, line) - {key} == Assign(b, line) - {key}
    ensures Binds(line, key) ==> Assign(a, line) - {key} == a - {key}
  {
    hide ParseLine;
    assert forall k :: k != key ==> (k in a <==> k in a - {key}) && (k in b <==> k in b - {key});
    assert forall k :: k in a - {key} ==> a[k] == (a - {key})[k] == (b - {key})[k] == b[k];
  }

  /** Lines that begin `key=` bind just that key, so dropping them leaves the others alone. */
  lemma {:induction false} KeptAssigns(ls: seq<string>, key: string)
    requires KeyOk(key)
    ensures AssignAll(Kept(ls, key)) - {key} == AssignAll(ls) - {key}
  {
    hide Starts, KeyOk, Assign, Binds;
    if ls != [] {
      var front, last := ls[..|ls| - 1], ls[|ls| - 1];
      KeptAssigns(front, key);
      KeptStep(ls, |front|, key);
      assert ls[..|front| + 1] == ls;
      AssignApart(AssignAll(Kept(front, key)), AssignAll(front), last, key);
      if Starts(last, key) {
        StartsBinds(last, key);
        AssignApart(AssignAll(front), AssignAll(front), last, key);
        assert Kept(ls, key) == Kept(front, key);
      } else {
        assert (Kept(front, key) + [last])[..|Kept(front, key)|] == Kept(front, key);
      }
    }
  }

  lemma StartsBinds(line: string, key: string)
    requires KeyOk(key) && Starts(line, key)
    ensures Binds(line, key)
  {
    var a := DropCR(line);
    assert a[..|key|] == key && a[|key|] == '=' by {
      assert |a| > |key|;
      assert line[..|key|] == (key + "=")[..|key|];
    }
    var t := Trim(a);
    TrimFromKey(a, |key|);
    assert t[..|key| + 1] == a[..|key| + 1];
    assert t[..|key|] == t[..|key| + 1][..|key|] == key;
    NoExport(key, t);
    assert !("#" <= t) by {
      assert t[0] == key[0];
    }
    IndexUnique(t, '=', |key|);
    TrimOfTrimmed(key);
  }

  /** Trimming a text that begins with a non-space keeps everything up to a non-space. */
  lemma TrimFromKey(a: string, n: nat)
    requires n < |a| && !IsSpace(a[0]) && !IsSpace(a[n])
    ensures |Trim(a)| > n && Trim(a)[..n + 1] == a[..n + 1]
  {
    assert TrimLeft(a) == a;
    TrimRightKeeps(a, n);
  }

  lemma {:induction false} TrimRightKeeps(a: string, n: nat)
    requires n < |a| && !IsSpace(a[n])
    ensures |TrimRight(a)| > n && TrimRight(a)[..n + 1] == a[..n + 1]
  {
    if IsSpace(a[|a| - 1]) {
      TrimRightKeeps(a[..|a| - 1], n);
      assert a[..|a| - 1][..n + 1] == a[..n + 1];
    }
  }

  /** Loading sees the lines of Split: the scanner's missing last empty line binds nothing. */
  lemma LoadBySplit(content: string)
    ensures Load(content).tooLong <==> !AllFit(Split(content))
    ensures !Load(content).tooLong ==> Load(content).env == AssignAll(Split(content))
  {
    hide ParseLine, Fits;
    var ps := Pieces(content);
    SplitIsPieces(content);
    ReadableAll(ps);
    EmptyLine();
    if Split(content) != ps {
      assert (ps + [""])[..|ps|] == ps;
      assert AllFit(ps + [""]) <==> AllFit(ps) by {
        assert forall i :: 0 <= i < |ps| ==> (ps + [""])[i] == ps[i];
      }
    }
  }

  lemma EmptyLine()
    ensures ParseLine("") == None && Fits("")
  {
  }

  /** Every line that binds the key begins literally with `key=`. */
  ghost predicate AllLiteral(ls: seq<string>, key: string) {
    forall i :: 0 <= i < |ls| && Binds(ls[i], key) ==> Starts(ls[i], key)
  }

  lemma KeptBindsIff(ls: seq<string>, key: string)
    ensures key in AssignAll(Kept(ls, key)) <==> !AllLiteral(ls, key)
  {
    hide Binds, Starts, AssignAll;
    var kept := Kept(ls, key);
    FilterMembers(ls, l => !Starts(l, key));
    BindsIff(kept, key);
    if i :| 0 <= i < |kept| && Binds(kept[i], key) {
      assert kept[i] in kept;
      var j :| 0 <= j < |ls| && ls[j] == kept[i];
    }
    if i :| 0 <= i < |ls| && Binds(ls[i], key) && !Starts(ls[i], key) {
      assert ls[i] in ls;
      assert ls[i] in kept;
      var j :| 0 <= j < |kept| && kept[j] == ls[i];
    }
  }

  /** The file after the removal is read as the surviving lines. */
  lemma LoadAfterRemove(content: string, key: string)
    requires !Load(content).tooLong
    ensures Load(Remove(content, key)) == Loaded(AssignAll(Kept(Split(content), key)), false)
  {
    hide ParseLine, Starts, Load, Fits, Split, Join;
    var ls := Split(content);
    var kept := Kept(ls, key);
    LoadBySplit(content);
    LoadBySplit(Remove(content, key));
    SurvivingLines(content, key);
    EmptyLine();
    FilterMembers(ls, l => !Starts(l, key));
    forall i | 0 <= i < |kept|
      ensures Fits(kept[i])
    {
      assert kept[i] in kept;
      var j :| 0 <= j < |ls| && ls[j] == kept[i];
    }
    assert [""][..0] == [];
  }

  /** After a removal the key is gone and every other binding is as before, exactly when
      every line that bound the key began literally with `key=`. */
  lemma DeleteCommutesIff(content: string, key: string)
    requires KeyOk(key) && !Load(content).tooLong
    ensures Load(Remove(content, key)) == Loaded(Load(content).env - {key}, false)
            <==> AllLiteral(Split(content), key)
  {
    hide ParseLine, Starts, KeyOk, Load, Split, Binds, Remove, Kept, AssignAll, AllLiteral;
    var ls := Split(content);
    LoadBySplit(content);
    LoadAfterRemove(content, key);
    KeptAssigns(ls, key);
    KeptBindsIff(ls, key);
    var kept := AssignAll(Kept(ls, key));
    assert kept - {key} == kept <==> key !in kept;
  }

  /** In a file the agent wrote every line begins with its own key. */
  lemma PrintedIsLiteral(values: Env, ks: seq<string>, key: string)
    requires Lists(ks, values) && forall k :: Written(values, k) ==> WellFormed(k, values[k])
    ensures AllLiteral(Split(Unlines(LinesOf(values, ks))), key)
  {
    hide ParseLine, Starts, KeyOk, ValueOk, Split, Pieces, Unlines, Fits, Line;
    var ls := LinesOf(values, ks);
    forall i | 0 <= i < |ls|
      ensures OneLine(ls[i]) && ParseLine(ls[i]) == Some((ks[i], values[ks[i]])) && Starts(ls[i], ks[i])
    {
      assert ks[i] in ks;
      assert WellFormed(ks[i], values[ks[i]]);
      LineIsOne(ks[i], values[ks[i]]);
      ParsesBackIff(ks[i], values[ks[i]]);
      LineStarts(ks[i], values[ks[i]]);
    }
    PiecesOfUnlines(ls);
    SplitIsPieces(Unlines(ls));
    EmptyLine();
  }

  lemma LineIsOne(k: string, v: string)
    requires OneLine(k) && OneLine(v)
    ensures OneLine(Line(k, v))
  {
  }

  /** On a file the agent wrote, deleting any well-formed key gives the map without it. */
  lemma DeleteFromPrinted(values: Env, it: seq<string>, key: string)
    requires Iterates(it, values) && KeyOk(key)
    requires forall k :: Written(values, k) ==> WellFormed(k, values[k])
    ensures Load(Remove(Print(values, it), key)) == Loaded(NonEmpty(values) - {key}, false)
  {
    hide PrintedKeys, KeyOk, WellFormed, Load, Split, Remove, Unlines, AllLiteral, Iterates;
    PrintedKeysFacts(values, it);
    RoundTripIff(values, it);
    PrintedIsLiteral(values, PrintedKeys(values, it), key);
    DeleteCommutesIff(Print(values, it), key);
  }

  lemma LineStarts(k: string, v: string)
    ensures Starts(Line(k, v), k)
  {
  }

  lemma OnlyLine(c: string)
    requires OneLine(c) && c != "" && Fits(c)
    ensures Split(c) == [c] && Load(c).env == Assign(map[], c)
  {
    hide ParseLine, Fits;
    IndexAbsent(c, '\n');
    assert c[..|c|] == c;
    LoadBySplit(c);
    assert [c][..0] == [];
  }

  const EXPORTED := "export A=1"

  lemma ExportedParses()
    ensures ParseLine(EXPORTED) == Some(("A", "1"))
  {
    hide Trim, IndexOf;
    TrimOfTrimmed(EXPORTED);
    var body := "A=1";
    assert StripExport(EXPORTED) == body;
    IndexUnique(body, '=', 1);
    assert body[..1] == "A" && body[2..] == "1";
    TrimOfTrimmed("A");
    TrimOfTrimmed("1");
  }

  lemma {:induction false} AsciiFits(s: string)
    ensures ByteLength(s) <= 4 * |s|
  {
    if s != "" {
      AsciiFits(s[1..]);
    }
  }

  /** A line written by hand as `export KEY=...` is loaded but not removed. */
  lemma ExportedSurvives()
    ensures Remove(EXPORTED, "A") == EXPORTED && Load(EXPORTED).env == map["A" := "1"]
  {
    hide ParseLine, Split, Load, ByteLength;
    AsciiFits(EXPORTED);
    OnlyLine(EXPORTED);
    ExportedParses();
    assert !Starts(EXPORTED, "A") by {
      assert ("A" + "=")[0] != EXPORTED[0];
    }
    NothingToDrop([EXPORTED], "A");
  }
}
