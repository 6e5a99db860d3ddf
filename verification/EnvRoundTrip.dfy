/** When reading agent.env back gives what was written to it. */
module EnvRoundTrip {
  import opened Prelude
  import opened Text
  import opened EnvFile

  /* ---- What one line parses to ---- */

  /** Where the parts of a parsed binding lie in the line: a key part of eq characters
      starting at `from`, the first '=' of the line, and a value part ending at `hi`. */
  ghost predicate Laid(raw: string, from: nat, eq: nat, hi: nat) {
    && 0 < eq && from + eq < hi <= |raw| && IndexOf(raw, '=') == from + eq
    && ParseLine(raw) == Some((Trim(raw[from..from + eq]), Unquote(Trim(raw[from + eq + 1..hi]))))
    && (from == 0 ==> StripExport(Trim(DropCR(raw))) == Trim(DropCR(raw)))
  }

  lemma Shape(raw: string) returns (from: nat, eq: nat, hi: nat)
    requires ParseLine(raw).Some?
    ensures Laid(raw, from, eq, hi) && |StripExport(Trim(DropCR(raw)))| == hi - from
  {
    hide Trim, Unquote, IndexOf, DropCR, StripExport, Without;
    var line := Trim(DropCR(raw));
    var body := StripExport(line);
    from, hi := BodyIsSlice(raw);
    eq := IndexOf(body, '=');
    IndexFirst(body, '=');
    SliceOfSlice(raw, from, hi, 0, eq);
    SliceOfSlice(raw, from, hi, eq + 1, |body|);
    assert body[..eq] == body[0..eq] && body[eq + 1..] == body[eq + 1..|body|];
    FirstEquals(raw, from, eq);
    ExportCut(line);
  }

  /** What is left after trimming and dropping `export ` is a slice with no '=' before it. */
  lemma BodyIsSlice(raw: string) returns (from: nat, hi: nat)
    ensures var line := Trim(DropCR(raw));
            && from <= hi <= |raw| && StripExport(line) == raw[from..hi]
            && Without(raw[..from], '=') && (from == 0 ==> StripExport(line) == line)
  {
    hide Trim, TrimLeft, TrimRight, IsSpace, Trimmed, StripExport, Without, DropCR;
    var a := DropCR(raw);
    var line := Trim(a);
    DropCRCut(raw);
    TrimCuts(a);
    ExportCut(line);
    var d, x := |a| - |TrimLeft(a)|, |line| - |StripExport(line)|;
    from, hi := d + x, d + |line|;
    CutTwice(raw, |a|, d, |line|, x);
    SpacesHaveNoEquals(a[..d]);
    WithoutJoin(a[..d], line[..x], '=');
  }

  lemma CutTwice(raw: string, n: nat, d: nat, l: nat, x: nat)
    requires n <= |raw| && d + l <= n && x <= l
    ensures var a := raw[0..n]; var line := a[d..d + l];
            line[x..] == raw[d + x..d + l] && raw[..d + x] == a[..d] + line[..x]
  {
    SliceOfSlice(raw, 0, n, d, d + l);
    SliceOfSlice(raw, d, d + l, x, l);
  }

  lemma DropCRCut(raw: string)
    ensures |DropCR(raw)| <= |raw| && DropCR(raw) == raw[0..|DropCR(raw)|]
  {
  }

  lemma WithoutJoin(u: string, v: string, c: char)
    requires Without(u, c) && Without(v, c)
    ensures Without(u + v, c)
  {
  }

  lemma FirstEquals(raw: string, from: nat, eq: nat)
    requires from + eq < |raw| && raw[from + eq] == '='
    requires Without(raw[..from], '=') && Without(raw[from..from + eq], '=')
    ensures IndexOf(raw, '=') == from + eq
  {
    hide IndexOf;
    WithoutConcat(raw, '=', from, from + eq);
    IndexUnique(raw, '=', from + eq);
  }

  lemma ExportCut(line: string)
    ensures |StripExport(line)| <= |line|
    ensures StripExport(line) == line[|line| - |StripExport(line)|..]
    ensures Without(line[..|line| - |StripExport(line)|], '=')
    ensures "export " <= line <==> StripExport(line) != line
  {
    if "export " <= line {
      assert line[..7] == "export ";
    }
  }

  lemma SpacesHaveNoEquals(s: string)
    requires AllSpace(s)
    ensures Without(s, '=')
  {
  }

  lemma TrimKeeps(s: string)
    ensures |Trim(s)| == |s| ==> Trim(s) == s
    ensures |Unquote(Trim(s))| <= |s| && (|Unquote(Trim(s))| == |s| ==> Unquote(Trim(s)) == s)
    ensures OneLine(s) ==> OneLine(Unquote(Trim(s))) && OneLine(Trim(s))
  {
    hide Trim, TrimLeft, IsSpace, Trimmed, AllSpace;
    TrimCuts(s);
    var t := Trim(s);
    var i := |s| - |TrimLeft(s)|;
    assert |t| == |s| ==> s[i..i + |t|] == s;
    assert forall n :: 0 <= n < |t| ==> t[n] == s[i + n];
    assert Quoted(t) ==> forall n :: 0 <= n < |t| - 2 ==> Unquote(t)[n] == t[n + 1];
  }

  /** Parsing only ever shortens: the key comes from before the first '=' and the value from
      after it, and a part of full length is unchanged. */
  lemma ParseShrinks(raw: string)
    requires ParseLine(raw).Some?
    ensures var e := IndexOf(raw, '='); var (k, v) := ParseLine(raw).value; Shrunk(raw, e, k, v)
  {
    hide ParseLine, IndexOf, Laid, StripExport, Trim, DropCR, Shrunk;
    var from, eq, hi := Shape(raw);
    LaidShrinks(raw, from, eq, hi);
  }

  predicate Shrunk(raw: string, e: nat, k: string, v: string) {
    && e < |raw| && |k| <= e && |v| <= |raw| - e - 1
    && (|k| == e ==> k == raw[..e]) && (|v| == |raw| - e - 1 ==> v == raw[e + 1..])
  }

  lemma LaidShrinks(raw: string, from: nat, eq: nat, hi: nat)
    requires Laid(raw, from, eq, hi)
    ensures IndexOf(raw, '=') == from + eq && ParseLine(raw).Some?
    ensures Shrunk(raw, from + eq, ParseLine(raw).value.0, ParseLine(raw).value.1)
  {
    hide ParseLine, IndexOf, StripExport, Trim, DropCR, Unquote;
    KeyPart(raw, from, from + eq);
    ValuePart(raw, from + eq + 1, hi);
  }

  lemma KeyPart(raw: string, from: nat, e: nat)
    requires from <= e <= |raw|
    ensures var k := Trim(raw[from..e]); |k| <= e && (|k| == e ==> k == raw[..e])
  {
    hide Trim, Unquote, OneLine, Without;
    TrimKeeps(raw[from..e]);
  }

  lemma ValuePart(raw: string, n: nat, hi: nat)
    requires n <= hi <= |raw|
    ensures var v := Unquote(Trim(raw[n..hi])); |v| <= |raw| - n && (|v| == |raw| - n ==> v == raw[n..])
  {
    hide Trim, Unquote, OneLine, Without;
    TrimKeeps(raw[n..hi]);
  }

  lemma ParseKeepsLines(raw: string)
    requires ParseLine(raw).Some? && OneLine(raw)
    ensures OneLine(ParseLine(raw).value.0) && OneLine(ParseLine(raw).value.1)
  {
    hide ParseLine, Trim, IndexOf, StripExport, Unquote, DropCR;
    var from, eq, hi := Shape(raw);
    assert OneLine(raw[from..from + eq]) && OneLine(raw[from + eq + 1..hi]);
    TrimKeeps(raw[from..from + eq]);
    TrimKeeps(raw[from + eq + 1..hi]);
  }

  predicate KeyOk(k: string) {
    k != "" && Trimmed(k) && Without(k, '=') && !("#" <= k) && !("export " <= k)
  }

  predicate ValueOk(v: string) { Trimmed(v) && !Quoted(v) }

  /** A printed binding parses back to itself exactly when its key and value have this form. */
  lemma ParsesBackIff(k: string, v: string)
    requires v != ""
    ensures ParseLine(Line(k, v)) == Some((k, v)) <==> KeyOk(k) && ValueOk(v)
  {
    if KeyOk(k) && ValueOk(v) {
      ParsesBack(k, v);
    }
    if ParseLine(Line(k, v)) == Some((k, v)) {
      FixedHasForm(k, v);
    }
  }

  lemma ParsesBack(k: string, v: string)
    requires v != "" && KeyOk(k) && ValueOk(v)
    ensures ParseLine(Line(k, v)) == Some((k, v))
  {
    var raw := Line(k, v);
    assert raw[0] == k[0] && raw[|raw| - 1] == v[|v| - 1];
    assert DropCR(raw) == raw;
    TrimOfTrimmed(raw);
    assert raw[..|k|] == k && raw[|k|] == '=' && raw[|k| + 1..] == v;
    NoExport(k, raw);
    IndexUnique(raw, '=', |k|);
    TrimOfTrimmed(k);
    TrimOfTrimmed(v);
  }

  lemma NoExport(k: string, line: string)
    requires |k| < |line| && line[..|k|] == k && line[|k|] == '=' && !("export " <= k)
    ensures !("export " <= line)
  {
    var word := "export ";
    if |k| < 7 {
      assert line[|k|] != word[|k|];
    } else {
      assert line[..7] == k[..7];
    }
  }

  lemma FixedHasForm(k: string, v: string)
    requires ParseLine(Line(k, v)) == Some((k, v))
    ensures KeyOk(k) && ValueOk(v)
  {
    hide Trim, Trimmed, IndexOf, ParseBody, Laid, Without, Quoted, DropCR, StripExport;
    var raw := Line(k, v);
    var from, eq, hi := Shape(raw);
    FixedIsWhole(k, v, from, eq, hi);
    TrimCuts(k);
    TrimCuts(v);
    WholeLine(raw);
    ExportCut(raw);
    assert "export " <= k ==> "export " <= raw;
    assert "#" <= k ==> "#" <= raw;
  }

  lemma WholeLine(raw: string)
    requires |StripExport(Trim(DropCR(raw)))| == |raw|
    ensures Trim(DropCR(raw)) == raw
  {
    hide Trim, StripExport, OneLine;
    TrimKeeps(DropCR(raw));
    ExportCut(Trim(DropCR(raw)));
  }

  /** Nothing was cut from a line that parses to what it was printed from. */
  lemma FixedIsWhole(k: string, v: string, from: nat, eq: nat, hi: nat)
    requires ParseLine(Line(k, v)) == Some((k, v)) && Laid(Line(k, v), from, eq, hi)
    ensures from == 0 && eq == |k| && hi == |Line(k, v)| && Without(k, '=')
    ensures Trim(k) == k && Trim(v) == v && !Quoted(v) && k != ""
    ensures var line := Trim(DropCR(Line(k, v))); StripExport(line) == line
  {
    hide ParseLine, Trim, TrimLeft, IsSpace, Trimmed, AllSpace;
    var raw := Line(k, v);
    var kp, vp := raw[from..from + eq], raw[from + eq + 1..hi];
    assert raw[|k|] == '=' && raw[..|k|] == k && raw[|k| + 1..] == v;
    IndexNoLater(raw, '=', |k|);
    IndexFirst(raw, '=');
    TrimKeeps(kp);
    TrimKeeps(vp);
    assert from == 0 && eq == |k|;
    assert kp == k;
    assert |vp| <= |v| && |Unquote(Trim(vp))| == |v|;
    assert vp == v;
  }

  /* ---- What a list of lines assigns ---- */

  lemma {:induction false} AssignedBySome(ls: seq<string>, k: string)
    requires k in AssignAll(ls)
    ensures exists i :: 0 <= i < |ls| && ParseLine(ls[i]) == Some((k, AssignAll(ls)[k]))
  {
    var front, last := ls[..|ls| - 1], ls[|ls| - 1];
    var p := ParseLine(last);
    if p.Some? && p.value.0 == k {
      assert p == Some((k, AssignAll(ls)[k]));
    } else {
      AssignedBySome(front, k);
      var i :| 0 <= i < |front| && ParseLine(front[i]) == Some((k, AssignAll(front)[k]));
      assert front[i] == ls[i];
    }
  }

  /** Lines whose keys and values survive parsing assign just those values. */
  lemma {:induction false} AssignOfFixed(ls: seq<string>, values: Env)
    requires forall i :: 0 <= i < |ls| ==>
               ParseLine(ls[i]).Some? && ParseLine(ls[i]).value.0 in values
               && ParseLine(ls[i]).value.1 == values[ParseLine(ls[i]).value.0]
    ensures forall k :: k in AssignAll(ls) ==> k in values && AssignAll(ls)[k] == values[k]
    ensures forall i :: 0 <= i < |ls| ==> ParseLine(ls[i]).value.0 in AssignAll(ls)
  {
    hide ParseLine;
    if ls != [] {
      AssignOfFixed(ls[..|ls| - 1], values);
    }
  }

  /* ---- The round trip ---- */

  /** The bindings that are written: those with a non-empty value. */
  function NonEmpty(values: Env): Env { map k | k in values && values[k] != "" :: values[k] }

  ghost predicate WellFormed(k: string, v: string) {
    KeyOk(k) && ValueOk(v) && OneLine(k) && OneLine(v) && Fits(Line(k, v))
  }

  /** For every map and every iteration order, reading back what was written succeeds and
      gives exactly the non-empty bindings if and only if each of these is well formed. */
  lemma RoundTripIff(values: Env, it: seq<string>)
    requires Iterates(it, values)
    ensures Load(Print(values, it)) == Loaded(NonEmpty(values), false)
            <==> forall k :: Written(values, k) ==> WellFormed(k, values[k])
  {
    var ks := PrintedKeys(values, it);
    PrintedKeysFacts(values, it);
    if forall k :: Written(values, k) ==> WellFormed(k, values[k]) {
      RoundTrip(values, ks);
    }
    if Load(Print(values, it)) == Loaded(NonEmpty(values), false) {
      forall k | Written(values, k)
        ensures WellFormed(k, values[k])
      {
        assert k in ks;
        OnlyWellFormed(values, ks, k);
      }
    }
  }

  /** ks lists the written keys. */
  ghost predicate Lists(ks: seq<string>, values: Env) {
    forall k :: k in ks <==> Written(values, k)
  }

  lemma RoundTrip(values: Env, ks: seq<string>)
    requires Lists(ks, values) && forall k :: Written(values, k) ==> WellFormed(k, values[k])
    ensures Load(Unlines(LinesOf(values, ks))) == Loaded(NonEmpty(values), false)
  {
    hide ParseLine, Fits, KeyOk, ValueOk, Pieces, Unlines, AssignAll, Readable;
    var ls := LinesOf(values, ks);
    forall i | 0 <= i < |ls|
      ensures OneLine(ls[i]) && Fits(ls[i]) && ParseLine(ls[i]) == Some((ks[i], values[ks[i]]))
    {
      assert ks[i] in ks;
      assert WellFormed(ks[i], values[ks[i]]);
      ParsesBackIff(ks[i], values[ks[i]]);
    }
    PiecesOfUnlines(ls);
    ReadableAll(ls);
    assert forall i :: 0 <= i < |ks| ==> ks[i] in ks && ks[i] in NonEmpty(values);
    AssignOfFixed(ls, NonEmpty(values));
    forall k | k in NonEmpty(values)
      ensures k in AssignAll(ls)
    {
      assert k in ks;
      var i :| 0 <= i < |ks| && ks[i] == k;
      assert ParseLine(ls[i]).value.0 == k;
    }
    assert AssignAll(ls) == NonEmpty(values);
  }

  /** Size of a binding, counting the key twice. Parsing never increases it. */
  function Weight(k: string, v: string): nat { 2 * |k| + |v| }

  lemma ParseLosesWeight(k: string, v: string)
    requires ParseLine(Line(k, v)).Some?
    ensures var (k', v') := ParseLine(Line(k, v)).value;
            (k', v') == (k, v) || Weight(k', v') < Weight(k, v)
  {
    hide ParseLine, IndexOf;
    var raw := Line(k, v);
    ParseShrinks(raw);
    assert raw[|k|] == '=' && raw[..|k|] == k && raw[|k| + 1..] == v;
    IndexNoLater(raw, '=', |k|);
  }

  function MaxWeight(values: Env, ks: seq<string>): (n: nat)
    requires forall k :: k in ks ==> k in values
    ensures forall k :: k in ks ==> Weight(k, values[k]) <= n
  {
    if ks == [] then 0
    else
      var n := MaxWeight(values, ks[1..]);
      var w := Weight(ks[0], values[ks[0]]);
      assert forall k :: k in ks ==> k == ks[0] || k in ks[1..];
      if w < n then n else w
  }

  /** If the lines assign exactly the map they were printed from, every line is a fixed
      point of parsing: a binding that is not must come from a strictly heavier one. */
  lemma AllFixed(values: Env, ks: seq<string>, k: string)
    requires Lists(ks, values) && AssignAll(LinesOf(values, ks)) == NonEmpty(values)
    requires k in ks
    ensures ParseLine(Line(k, values[k])) == Some((k, values[k]))
    decreases MaxWeight(values, ks) - Weight(k, values[k])
  {
    var ls := LinesOf(values, ks);
    AssignedBySome(ls, k);
    var i :| 0 <= i < |ls| && ParseLine(ls[i]) == Some((k, values[k]));
    var c := ks[i];
    ParseLosesWeight(c, values[c]);
    if c != k {
      AllFixed(values, ks, c);
    }
  }

  /** A map that was read back holds no newline: the scanner's lines have none. */
  lemma ReadBackIsOneLine(content: string, k: string)
    requires !Load(content).tooLong && k in Load(content).env
    ensures OneLine(k) && OneLine(Load(content).env[k])
  {
    hide ParseLine, AssignAll, Readable, Pieces, Fits;
    var ps := Pieces(content);
    ReadableAll(ps);
    PiecesAreLines(content);
    AssignedBySome(ps, k);
    var i :| 0 <= i < |ps| && ParseLine(ps[i]) == Some((k, AssignAll(ps)[k]));
    ParseKeepsLines(ps[i]);
  }

  lemma OnlyWellFormed(values: Env, ks: seq<string>, k: string)
    requires Lists(ks, values) && k in ks
    requires Load(Unlines(LinesOf(values, ks))) == Loaded(NonEmpty(values), false)
    ensures WellFormed(k, values[k])
  {
    var ls := LinesOf(values, ks);
    forall i | 0 <= i < |ls|
      ensures OneLine(ls[i])
    {
      assert ks[i] in ks;
      assert Written(values, ks[i]) && ks[i] in NonEmpty(values);
      ReadBackIsOneLine(Unlines(ls), ks[i]);
    }
    ReadBackIsOneLine(Unlines(ls), k);
    PiecesOfUnlines(ls);
    ReadableAll(ls);
    AllFixed(values, ks, k);
    ParsesBackIff(k, values[k]);
    var i :| 0 <= i < |ks| && ks[i] == k;
    assert Fits(ls[i]);
  }
}
