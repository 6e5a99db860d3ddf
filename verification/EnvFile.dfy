/** agent.env: the loader and the printer of cmd/agent/enroll.go. */
module EnvFile {
  import opened Prelude
  import opened Text

  type Env = map<string, string>

  function Lookup(env: Env, k: string): string { if k in env then env[k] else "" }

  const MAX_TOKEN := 65536 // bufio.MaxScanTokenSize

  /* ---- One line ---- */

  predicate Quoted(v: string) {
    |v| >= 2 && ((v[0] == '"' && v[|v| - 1] == '"') || (v[0] == '\'' && v[|v| - 1] == '\''))
  }

  function Unquote(v: string): string {
    if Quoted(v) then v[1..|v| - 1] else v
  }

  function DropCR(raw: string): string {
    if raw != [] && raw[|raw| - 1] == '\r' then raw[..|raw| - 1] else raw
  }

  function StripExport(line: string): string {
    if "export " <= line then line[7..] else line
  }

  /** The binding made by a line that is neither blank nor a comment. */
  function ParseBody(body: string): Option<(string, string)> {
    var eq := IndexOf(body, '=');
    if eq == 0 || eq == |body| then None
    else Some((Trim(body[..eq]), Unquote(Trim(body[eq + 1..]))))
  }

  /** The binding a line of the file makes, if any. */
  function ParseLine(raw: string): Option<(string, string)> {
    var line := Trim(DropCR(raw));
    if line == "" || "#" <= line then None else ParseBody(StripExport(line))
  }

  /* ---- Loading ---- */

  function Assign(env: Env, raw: string): Env {
    match ParseLine(raw)
    case Some((k, v)) => env[k := v]
    case None => env
  }

  /** The lines assigned in order, so that the last assignment of a key wins. */
  function AssignAll(ls: seq<string>): Env {
    if ls == [] then map[] else Assign(AssignAll(ls[..|ls| - 1]), ls[|ls| - 1])
  }

  predicate Fits(raw: string) { ByteLength(raw) < MAX_TOKEN }

  /** The lines before the first one that overflows the scanner's buffer. */
  function Readable(ls: seq<string>): seq<string> {
    if ls == [] || !Fits(ls[0]) then [] else [ls[0]] + Readable(ls[1..])
  }

  datatype Loaded = Loaded(env: Env, tooLong: bool)

  /** Result of loadEnvFile on a file with this content. */
  function Load(content: string): Loaded {
    var ls := Pieces(content);
    Loaded(AssignAll(Readable(ls)), |Readable(ls)| < |ls|)
  }

  ghost predicate AllFit(ls: seq<string>) { forall i :: 0 <= i < |ls| ==> Fits(ls[i]) }

  lemma {:induction false} ReadableAll(ls: seq<string>)
    ensures |Readable(ls)| <= |ls|
    ensures |Readable(ls)| == |ls| <==> AllFit(ls)
    ensures AllFit(ls) ==> Readable(ls) == ls
  {
    if ls != [] && Fits(ls[0]) {
      ReadableAll(ls[1..]);
      assert ls == [ls[0]] + ls[1..];
      assert AllFit(ls) <==> AllFit(ls[1..]) by {
        assert forall i :: 0 <= i < |ls| - 1 ==> ls[1..][i] == ls[i + 1];
        assert forall i :: 0 < i < |ls| ==> ls[i] == ls[1..][i - 1];
      }
    }
  }

  /** Reading stops at the first line that does not fit. */
  lemma {:induction false} ReadableStops(done: seq<string>, ls: seq<string>)
    requires AllFit(done) && ls != [] && !Fits(ls[0])
    ensures Readable(done + ls) == done
  {
    if done != [] {
      assert (done + ls)[1..] == done[1..] + ls;
      ReadableStops(done[1..], ls);
      assert done == [done[0]] + done[1..];
    } else {
      assert done + ls == ls;
    }
  }

  /** The scanning loop. A missing file is an empty environment. */
  method LoadEnvFile(file: Option<string>) returns (out: Env, tooLong: bool)
    ensures Loaded(out, tooLong) == if file.Some? then Load(file.value) else Loaded(map[], false)
  {
    out, tooLong := map[], false;
    if file.None? {
      return;
    }
    var rest := file.value;
    ghost var done: seq<string> := [];
    while rest != []
      invariant Pieces(file.value) == done + Pieces(rest)
      invariant AllFit(done) && out == AssignAll(done)
      decreases |rest|
    {
      var raw, after := Scan(rest);
      if !Fits(raw) {
        tooLong := true;
        ReadableStops(done, Pieces(rest));
        return;
      }
      StepOver(done, raw, Pieces(after));
      done := done + [raw];
      rest := after;
      out := AssignLine(out, raw);
    }
    assert done + Pieces(rest) == done;
    ReadableAll(done);
  }

  method Scan(rest: string) returns (raw: string, after: string)
    requires rest != []
    ensures Pieces(rest) == [raw] + Pieces(after) && |after| < |rest|
  {
    hide Pieces, IndexOf;
    var n := IndexOf(rest, '\n');
    raw := rest[..n];
    after := if n == |rest| then [] else rest[n + 1..];
    FirstPiece(rest, after);
  }

  lemma FirstPiece(rest: string, after: string)
    requires rest != [] && after == if IndexOf(rest, '\n') == |rest| then [] else rest[IndexOf(rest, '\n') + 1..]
    ensures Pieces(rest) == [rest[..IndexOf(rest, '\n')]] + Pieces(after)
  {
    hide IndexOf;
    assert Pieces([]) == [];
  }

  lemma StepOver(done: seq<string>, raw: string, ls: seq<string>)
    ensures done + ([raw] + ls) == (done + [raw]) + ls
    ensures AssignAll(done + [raw]) == Assign(AssignAll(done), raw)
  {
    assert (done + [raw])[..|done|] == done;
  }

  /** Body of the loop: skip blanks, comments and lines without a key, else bind. */
  method AssignLine(env: Env, raw: string) returns (out: Env)
    ensures out == Assign(env, raw)
  {
    hide Trim, DropCR, IndexOf, StripExport;
    out := env;
    var line := Trim(DropCR(raw));
    if line == "" || "#" <= line {
      return;
    }
    line := StripExport(line);
    var eq := IndexOf(line, '=');
    if eq == 0 || eq == |line| {
      return;
    }
    var k, v := Trim(line[..eq]), Trim(line[eq + 1..]);
    if Quoted(v) {
      v := v[1..|v| - 1];
    }
    out := out[k := v];
  }

  /* ---- Printing ---- */

  const ORDER: seq<string> :=
    ["HASFY_API_URL", "HASFY_RELAY_URL", "HASFY_DEVICE_ID", "HASFY_ORG_ID", "HASFY_DEVICE_ENROLLMENT_TOKEN"]

  predicate Written(values: Env, k: string) { k in values && values[k] != "" }

  function Line(k: string, v: string): string { k + "=" + v }

  /** The order in which Go happens to range over the map: each key exactly once. */
  ghost predicate Iterates(it: seq<string>, values: Env) {
    (forall k :: k in it <==> k in values) && Distinct(it)
  }

  ghost predicate Distinct(ks: seq<string>) {
    forall i, j :: 0 <= i < j < |ks| ==> ks[i] != ks[j]
  }

  function KnownKeys(values: Env, order: seq<string>): seq<string> {
    Filter(order, k => Written(values, k))
  }

  function OtherKeys(values: Env, it: seq<string>): seq<string> {
    Filter(it, k => k !in ORDER && Written(values, k))
  }

  /** Keys in the order they are printed: the known ones first, then the others. */
  function PrintedKeys(values: Env, it: seq<string>): seq<string> {
    KnownKeys(values, ORDER) + OtherKeys(values, it)
  }

  function LinesOf(values: Env, ks: seq<string>): (ls: seq<string>)
    requires forall k :: k in ks ==> k in values
    ensures |ls| == |ks| && forall i :: 0 <= i < |ks| ==> ls[i] == Line(ks[i], values[ks[i]])
  {
    seq(|ks|, i requires 0 <= i < |ks| => Line(ks[i], values[ks[i]]))
  }

  lemma KeyMembers(values: Env, order: seq<string>, it: seq<string>)
    ensures forall k :: k in KnownKeys(values, order) <==> k in order && Written(values, k)
    ensures forall k :: k in OtherKeys(values, it) <==> k in it && k !in ORDER && Written(values, k)
  {
    FilterMembers(order, k => Written(values, k));
    FilterMembers(it, k => k !in ORDER && Written(values, k));
  }

  lemma DistinctConcat(a: seq<string>, b: seq<string>)
    requires Distinct(a) && Distinct(b) && forall k :: k in a ==> k !in b
    ensures Distinct(a + b)
  {
    assert forall i :: 0 <= i < |a| ==> a[i] in a;
    assert forall i :: 0 <= i < |b| ==> b[i] in b;
  }

  /** Every key with a non-empty value is printed exactly once, and no other key is. */
  lemma PrintedKeysFacts(values: Env, it: seq<string>)
    requires Iterates(it, values)
    ensures forall k :: k in PrintedKeys(values, it) <==> Written(values, k)
    ensures Distinct(PrintedKeys(values, it))
  {
    KeyMembers(values, ORDER, it);
    assert Distinct(ORDER);
    FilterDistinct(ORDER, k => Written(values, k));
    FilterDistinct(it, k => k !in ORDER && Written(values, k));
    DistinctConcat(KnownKeys(values, ORDER), OtherKeys(values, it));
  }

  lemma {:induction false} FilterDistinct(ks: seq<string>, p: string -> bool)
    requires Distinct(ks)
    ensures Distinct(Filter(ks, p))
  {
    if ks != [] {
      var front, last := ks[..|ks| - 1], ks[|ks| - 1];
      FilterDistinct(front, p);
      FilterMembers(front, p);
      var f := Filter(front, p);
      assert forall i :: 0 <= i < |f| ==> f[i] in f;
    }
  }

  /** Content of the file writeEnvFile puts in place. */
  function Print(values: Env, it: seq<string>): string
    requires Iterates(it, values)
  {
    PrintedKeysFacts(values, it);
    Unlines(LinesOf(values, PrintedKeys(values, it)))
  }

  method WriteEnvFile(values: Env, it: seq<string>) returns (buf: string)
    requires Iterates(it, values)
    ensures buf == Print(values, it)
  {
    hide KnownKeys, OtherKeys, Unlines;
    var written: set<string>;
    buf, written := PrintKnown(values);
    PrintedKeysFacts(values, it);
    KeyMembers(values, ORDER, it);
    ghost var first := KnownKeys(values, ORDER);
    assert OtherKeys(values, []) == [] by { NoOtherKeys(values); }
    assert first + [] == first && it[..0] == [];
    for i := 0 to |it|
      invariant forall k :: k in first + OtherKeys(values, it[..i]) ==> k in values
      invariant buf == Unlines(LinesOf(values, first + OtherKeys(values, it[..i])))
    {
      var k := it[i];
      assert k in it;
      ghost var ks := first + OtherKeys(values, it[..i]);
      OtherKeysStep(values, it, i, first);
      if k !in written && values[k] != "" {
        buf := AppendLine(buf, values, ks, k);
      }
    }
    assert it[..|it|] == it;
  }

  lemma OtherKeysStep(values: Env, it: seq<string>, i: nat, first: seq<string>)
    requires i < |it|
    ensures var ks := first + OtherKeys(values, it[..i]);
            first + OtherKeys(values, it[..i + 1]) ==
            if it[i] !in ORDER && Written(values, it[i]) then ks + [it[i]] else ks
  {
    assert it[..i + 1] == it[..i] + [it[i]];
    FilterSnoc(it[..i], it[i], k => k !in ORDER && Written(values, k));
  }

  lemma NoOtherKeys(values: Env)
    ensures OtherKeys(values, []) == []
  {
  }

  /** The first loop of writeEnvFile, over the fixed order. */
  method PrintKnown(values: Env) returns (buf: string, written: set<string>)
    ensures forall k :: k in KnownKeys(values, ORDER) ==> k in values
    ensures buf == Unlines(LinesOf(values, KnownKeys(values, ORDER)))
    ensures forall k :: k in written <==> k in ORDER && Written(values, k)
  {
    buf, written := "", {};
    for i := 0 to |ORDER|
      invariant forall k :: k in KnownKeys(values, ORDER[..i]) ==> k in values
      invariant buf == Unlines(LinesOf(values, KnownKeys(values, ORDER[..i])))
      invariant forall k :: k in written <==> k in ORDER[..i] && Written(values, k)
    {
      var k := ORDER[i];
      ghost var ks := KnownKeys(values, ORDER[..i]);
      assert ORDER[..i + 1] == ORDER[..i] + [k];
      FilterSnoc(ORDER[..i], k, k => Written(values, k));
      if k in values && values[k] != "" {
        buf := AppendLine(buf, values, ks, k);
        assert KnownKeys(values, ORDER[..i + 1]) == ks + [k];
        written := written + {k};
      } else {
        assert KnownKeys(values, ORDER[..i + 1]) == ks;
      }
    }
    assert ORDER[..|ORDER|] == ORDER;
  }

  /** fmt.Fprintf(&buf, "%s=%s\n", k, v). */
  method AppendLine(buf: string, values: Env, ghost ks: seq<string>, k: string) returns (r: string)
    requires k in values && forall l :: l in ks ==> l in values
    requires buf == Unlines(LinesOf(values, ks))
    ensures forall l :: l in ks + [k] ==> l in values
    ensures r == Unlines(LinesOf(values, ks + [k]))
  {
    r := buf + k + "=" + values[k] + "\n";
    assert LinesOf(values, ks + [k]) == LinesOf(values, ks) + [Line(k, values[k])];
    UnlinesSnoc(LinesOf(values, ks), Line(k, values[k]));
    assert r == buf + Line(k, values[k]) + "\n";
  }
}
