/** What a printed agent.env is read back as, whatever its values: a value that holds a newline
    is spread over several lines, and each of these may bind a key of its own. */
module EnvReadBack {
  import opened Prelude
  import opened Text
  import opened EnvFile
  import opened EnvRoundTrip

  /** What is left of a value once its line has been read. */
  function ReadBack(v: string): string { Unquote(Trim(v)) }

  lemma {:induction false} DropCRPads(x: string, a: string, t: string, b: string) returns (a': string, b': string)
    requires AllSpace(a) && AllSpace(b) && Trimmed(t) && x != [] && !IsSpace(x[|x| - 1])
    ensures AllSpace(a') && AllSpace(b') && DropCR(x + (a + t + b)) == x + (a' + t + b')
  {
    var raw := x + (a + t + b);
    a', b' := a, b;
    if DropCR(raw) != raw {
      if b != [] {
        b' := b[..|b| - 1];
      } else if t == [] && a != [] {
        a' := a[..|a| - 1];
      }
      assert raw[..|raw| - 1] == x + (a' + t + b');
    }
  }

  /** A line with a sound key binds it to what is left of its value. */
  lemma ParsesToReadBack(k: string, v: string)
    requires KeyOk(k)
    ensures ParseLine(Line(k, v)) == Some((k, ReadBack(v)))
  {
    hide Trim, TrimLeft, TrimRight, IndexOf, Unquote, DropCR, IsSpace;
    var x, t := k + "=", Trim(v);
    var a, b := PadsAround(v);
    EqualsIsNoSpace();
    assert Line(k, v) == x + (a + t + b);
    a, b := DropCRPads(x, a, t, b);
    var line := x + (if t == [] then [] else a + t);
    assert x[0] == k[0];
    PaddedLine(x, a, t, b);
    ParsesKey(k, line);
    assert line[|k| + 1..] == if t == [] then [] else a + t;
  }

  /** Trimming a line keeps its key, its '=' and its value up to the last non-space. */
  lemma PaddedLine(x: string, a: string, t: string, b: string)
    requires x != [] && Trimmed(x) && AllSpace(a) && AllSpace(b) && Trimmed(t)
    ensures Trim(x + (a + t + b)) == x + (if t == [] then [] else a + t)
    ensures Trim(if t == [] then [] else a + t) == t
  {
    hide Trim;
    var none: string := [];
    if t == [] {
      assert x + (a + t + b) == none + x + (a + b);
      TrimOfPadded(none, x, a + b);
      assert x + none == x && none + none + none == none;
      TrimOfPadded(none, none, none);
    } else {
      assert x + (a + t + b) == none + (x + (a + t)) + b;
      TrimOfPadded(none, x + (a + t), b);
      TrimOfPadded(a, t, none);
      assert a + t + none == a + t;
    }
  }

  lemma EqualsIsNoSpace()
    ensures !IsSpace('=')
  {
  }

  lemma ParsesKey(k: string, line: string)
    requires KeyOk(k) && |k| < |line| && line[..|k|] == k && line[|k|] == '='
    ensures line != "" && !("#" <= line)
    ensures ParseBody(StripExport(line)) == Some((k, Unquote(Trim(line[|k| + 1..]))))
  {
    hide Trim, Unquote;
    assert line[0] == k[0];
    NoExport(k, line);
    IndexUnique(line, '=', |k|);
    TrimOfTrimmed(k);
  }

  /* ---- Several lines ---- */

  /** The value the lines bind the key to: the last binding counts. */
  function LastBinding(ls: seq<string>, key: string): Option<string> {
    if ls == [] then None
    else match ParseLine(ls[|ls| - 1])
      case Some((k, v)) => if k == key then Some(v) else LastBinding(ls[..|ls| - 1], key)
      case None => LastBinding(ls[..|ls| - 1], key)
  }

  lemma {:induction false} AssignsLast(ls: seq<string>, key: string)
    ensures key in AssignAll(ls) <==> LastBinding(ls, key).Some?
    ensures key in AssignAll(ls) ==> LastBinding(ls, key) == Some(AssignAll(ls)[key])
  {
    hide ParseLine;
    if ls != [] {
      AssignsLast(ls[..|ls| - 1], key);
    }
  }

  lemma {:induction false} LastOfConcat(a: seq<string>, b: seq<string>, key: string)
    ensures LastBinding(a + b, key) == if LastBinding(b, key).Some? then LastBinding(b, key) else LastBinding(a, key)
  {
    hide ParseLine;
    if b == [] {
      assert a + b == a;
    } else {
      LastOfConcat(a, b[..|b| - 1], key);
      assert (a + b)[..|a + b| - 1] == a + b[..|b| - 1];
    }
  }

  /** The lines a value adds after its own. */
  function Extras(v: string): seq<string> { Split(v)[1..] }

  /** What these printed bindings leave the key bound to: the last extra line that binds it, or
      its own first line, whichever comes later. */
  function Bound(values: Env, ks: seq<string>, key: string): Option<string> {
    if ks == [] then None
    else
      var k, v := ks[|ks| - 1], Lookup(values, ks[|ks| - 1]);
      var extra := LastBinding(Extras(v), key);
      if extra.Some? then extra
      else if k == key then Some(ReadBack(Split(v)[0]))
      else Bound(values, ks[..|ks| - 1], key)
  }

  /** The lines of one printed binding. */
  lemma LinesOfOne(k: string, v: string, key: string)
    requires KeyOk(k) && OneLine(k)
    ensures Split(Line(k, v)) == [Line(k, Split(v)[0])] + Extras(v)
    ensures LastBinding(Split(Line(k, v)), key)
            == if LastBinding(Extras(v), key).Some? then LastBinding(Extras(v), key)
               else if k == key then Some(ReadBack(Split(v)[0])) else None
  {
    hide Split, ParseLine, ReadBack, KeyOk;
    var x := k + "=";
    assert OneLine(x) && x + v == Line(k, v) && x + Split(v)[0] == Line(k, Split(v)[0]);
    SplitPrefixed(x, v);
    ParsesToReadBack(k, Split(v)[0]);
    LastOfConcat([Line(k, Split(v)[0])], Extras(v), key);
    LastOfOne(Line(k, Split(v)[0]), key);
  }

  lemma LastOfOne(l: string, key: string)
    ensures LastBinding([l], key) == match ParseLine(l)
                                     case Some((k, v)) => if k == key then Some(v) else None
                                     case None => None
  {
    hide ParseLine;
    assert [l][..0] == [];
  }

  ghost predicate Sound(values: Env) { forall k :: Written(values, k) ==> KeyOk(k) && OneLine(k) }

  lemma {:induction false} BoundIsLast(values: Env, ks: seq<string>, key: string)
    requires (forall k :: k in ks ==> Written(values, k)) && Sound(values)
    ensures LastBinding(SplitAll(LinesOf(values, ks)), key) == Bound(values, ks, key)
  {
    hide Split, SplitAll, KeyOk, ReadBack, ParseLine, Line;
    if ks == [] {
      assert LinesOf(values, ks) == [];
      NothingBound(key);
    } else {
      var front, k := ks[..|ks| - 1], ks[|ks| - 1];
      assert k in ks;
      BoundIsLast(values, front, key);
      assert LinesOf(values, ks) == LinesOf(values, front) + [Line(k, values[k])];
      SplitAllSnoc(LinesOf(values, front), Line(k, values[k]));
      LinesOfOne(k, values[k], key);
      LastOfConcat(SplitAll(LinesOf(values, front)), Split(Line(k, values[k])), key);
    }
  }

  lemma NothingBound(key: string)
    ensures LastBinding(SplitAll([]), key) == None
  {
  }

  lemma {:induction false} AllFitSplit(ls: seq<string>)
    ensures AllFit(SplitAll(ls)) <==> forall i :: 0 <= i < |ls| ==> AllFit(Split(ls[i]))
  {
    hide Split, Fits;
    if ls != [] {
      AllFitSplit(ls[1..]);
      FitConcat(Split(ls[0]), SplitAll(ls[1..]));
      assert ls == [ls[0]] + ls[1..];
    }
  }

  lemma FitConcat(a: seq<string>, b: seq<string>)
    ensures AllFit(a + b) <==> AllFit(a) && AllFit(b)
  {
    hide Fits;
    assert forall i :: 0 <= i < |a| ==> (a + b)[i] == a[i];
    assert forall i :: 0 <= i < |b| ==> (a + b)[|a| + i] == b[i];
  }

  /** Every line of every printed binding fits the scanner's buffer. */
  ghost predicate AllLinesFit(values: Env) {
    forall k :: Written(values, k) ==> AllFit(Split(Line(k, values[k])))
  }

  /** Reading back a file printed from any values under sound keys. */
  lemma LoadOfPrinted(values: Env, it: seq<string>)
    requires Iterates(it, values) && Sound(values)
    ensures Load(Print(values, it)).tooLong <==> !AllLinesFit(values)
    ensures !Load(Print(values, it)).tooLong ==>
              var ks := PrintedKeys(values, it);
              forall key :: (key in Load(Print(values, it)).env <==> Bound(values, ks, key).Some?)
                               && (key in Load(Print(values, it)).env
                                   ==> Bound(values, ks, key) == Some(Load(Print(values, it)).env[key]))
  {
    hide Pieces, Unlines, AssignAll, Readable, KeyOk, Fits, ReadBack, ORDER, Line, Split, SplitAll, ParseLine, Bound;
    var ks := PrintedKeys(values, it);
    PrintedKeysFacts(values, it);
    var ls := LinesOf(values, ks);
    PiecesOfTexts(ls);
    ReadableAll(SplitAll(ls));
    AllFitSplit(ls);
    FitByKey(values, ks, ls);
    forall key
      ensures LastBinding(SplitAll(ls), key) == Bound(values, ks, key)
      ensures key in AssignAll(SplitAll(ls)) <==> LastBinding(SplitAll(ls), key).Some?
      ensures key in AssignAll(SplitAll(ls)) ==> LastBinding(SplitAll(ls), key) == Some(AssignAll(SplitAll(ls))[key])
    {
      BoundIsLast(values, ks, key);
      AssignsLast(SplitAll(ls), key);
    }
  }

  lemma FitByKey(values: Env, ks: seq<string>, ls: seq<string>)
    requires Lists(ks, values) && ls == LinesOf(values, ks)
    ensures AllLinesFit(values) <==> forall i :: 0 <= i < |ls| ==> AllFit(Split(ls[i]))
  {
    hide Split, AllFit, Line;
    assert forall i :: 0 <= i < |ks| ==> ks[i] in ks;
    if forall i :: 0 <= i < |ls| ==> AllFit(Split(ls[i])) {
      forall k | Written(values, k)
        ensures AllFit(Split(Line(k, values[k])))
      {
        assert k in ks;
        var i :| 0 <= i < |ks| && ks[i] == k;
        assert ls[i] == Line(k, values[k]);
      }
    }
  }

  /* ---- Values of one line ---- */

  /** A value of one line adds none, so each key is bound to what is left of its own value. */
  lemma {:induction false} BoundToOwn(values: Env, ks: seq<string>, key: string)
    requires forall k :: k in ks ==> k in values && OneLine(values[k])
    ensures Bound(values, ks, key) == if key in ks then Some(ReadBack(values[key])) else None
  {
    hide ReadBack, Split, LastBinding;
    if ks != [] {
      var front, k := ks[..|ks| - 1], ks[|ks| - 1];
      assert k in ks && forall j :: j in ks <==> j in front || j == k;
      BoundToOwn(values, front, key);
      SplitOfLine(values[k]);
      NothingInNoLines(key);
    }
  }

  lemma NothingInNoLines(key: string)
    ensures LastBinding([], key) == None
  {
  }

  lemma SplitOfLine(v: string)
    requires OneLine(v)
    ensures Split(v) == [v] && Extras(v) == []
  {
    IndexAbsent(v, '\n');
  }
}
