/** The relay's own loader, cmd/relay/envfile.go, beside the agent's: the process environment
    wins, then the first assignment of a key, where the agent's loader lets the last win. */
module RelayEnv {
  import opened Prelude
  import opened Text
  import opened EnvFile
  import opened EnvRoundTrip

  /** os.Setenv accepts the pair (a parsed key holds no '='). */
  predicate Settable(k: string, v: string) { k != "" && '\0' !in k && '\0' !in v }

  function Export(env: Env, raw: string): Env {
    match ParseLine(raw)
    case Some((k, v)) => if k !in env && Settable(k, v) then env[k := v] else env
    case None => env
  }

  function ExportAll(env: Env, ls: seq<string>): Env {
    if ls == [] then env else Export(ExportAll(env, ls[..|ls| - 1]), ls[|ls| - 1])
  }

  /** The process environment after loading a file with this content. */
  function LoadInto(environ: Env, content: string): Env { ExportAll(environ, Readable(Pieces(content))) }

  /** A missing file, and whatever follows a line too long for the scanner, is skipped. */
  method LoadRelayEnv(file: Option<string>, environ: Env) returns (env: Env)
    ensures env == if file.Some? then LoadInto(environ, file.value) else environ
  {
    hide Fits, Export, Readable, Pieces;
    env := environ;
    if file.None? {
      return;
    }
    EmptyFile();
    var rest := file.value;
    ghost var done: seq<string> := [];
    while rest != []
      invariant Pieces(file.value) == done + Pieces(rest)
      invariant AllFit(done) && env == ExportAll(environ, done)
      decreases |rest|
    {
      var raw, after := Scan(rest);
      if !Fits(raw) {
        ReadableStops(done, Pieces(rest));
        return;
      }
      ExportSnoc(environ, done, raw, Pieces(after));
      done := done + [raw];
      rest := after;
      env := ExportLine(env, raw);
    }
    assert done + Pieces(rest) == done;
    ReadableAll(done);
  }

  lemma EmptyFile()
    ensures Pieces([]) == []
  {
  }

  lemma ExportSnoc(environ: Env, done: seq<string>, raw: string, ls: seq<string>)
    ensures done + ([raw] + ls) == (done + [raw]) + ls
    ensures ExportAll(environ, done + [raw]) == Export(ExportAll(environ, done), raw)
  {
    assert (done + [raw])[..|done|] == done;
  }

  method ExportLine(env: Env, raw: string) returns (out: Env)
    ensures out == Export(env, raw)
  {
    hide Trim, DropCR, IndexOf, StripExport;
    out := env;
    var line := Trim(DropCR(raw));
    if line == "" || "#" <= line {
      return;
    }
    line := StripExport(line);
    var eq := IndexOf(line, '=');
    if eq == 0 || eq == |line| {
      return;
    }
    var k, v := Trim(line[..eq]), Trim(line[eq + 1..]);
    if Quoted(v) {
      v := v[1..|v| - 1];
    }
    if k !in out && Settable(k, v) {
      out := out[k := v];
    }
  }

  /** The value of the first assignment of k that the environment accepts. */
  function First(ls: seq<string>, k: string): Option<string> {
    if ls == [] then None
    else
      var f := First(ls[..|ls| - 1], k);
      if f.Some? then f
      else match ParseLine(ls[|ls| - 1])
        case Some((key, v)) => if key == k && Settable(k, v) then Some(v) else None
        case None => None
  }

  /** What the relay ends up with, key by key. */
  lemma {:induction false} EnvironThenFirst(environ: Env, ls: seq<string>, k: string)
    ensures k in ExportAll(environ, ls) <==> k in environ || First(ls, k).Some?
    ensures k in ExportAll(environ, ls) ==>
              ExportAll(environ, ls)[k] == if k in environ then environ[k] else First(ls, k).value
  {
    hide ParseLine, Settable;
    if ls != [] {
      EnvironThenFirst(environ, ls[..|ls| - 1], k);
    }
  }

  /** Line i is the first to bind k to something a variable can hold: k is not empty, and neither it
      nor the value holds a NUL. */
  ghost predicate FirstBinds(ls: seq<string>, i: nat, k: string, v: string) {
    && i < |ls| && ParseLine(ls[i]) == Some((k, v)) && k != "" && '\0' !in k && '\0' !in v
    && forall j, w :: 0 <= j < i && '\0' !in w ==> ParseLine(ls[j]) != Some((k, w))
  }

  lemma {:induction false} FirstIs(ls: seq<string>, k: string, v: string)
    ensures First(ls, k) == Some(v) <==> exists i: nat :: FirstBinds(ls, i, k, v)
    ensures First(ls, k) == None ==>
              || k == "" || '\0' in k
              || forall j, w :: 0 <= j < |ls| && '\0' !in w ==> ParseLine(ls[j]) != Some((k, w))
  {
    hide ParseLine;
    if ls != [] {
      var n := |ls| - 1;
      var front := ls[..n];
      FirstIs(front, k, v);
      if First(front, k).Some? {
        FirstIs(front, k, First(front, k).value);
        var i: nat :| FirstBinds(front, i, k, First(front, k).value);
        assert FirstBinds(ls, i, k, First(front, k).value);
      }
      if First(ls, k) == Some(v) && First(front, k).None? {
        assert FirstBinds(ls, n, k, v);
      }
      if i: nat :| FirstBinds(ls, i, k, v) {
        if i < n {
          assert FirstBinds(front, i, k, v);
        }
      }
    }
  }

  /** So a variable is what the process environment has for it, or else what the first such line
      says; and it is not set if there is neither. */
  lemma SetByFirst(environ: Env, ls: seq<string>, k: string, v: string)
    ensures k in ExportAll(environ, ls) && ExportAll(environ, ls)[k] == v
            <==> (k in environ && environ[k] == v) || (k !in environ && exists i: nat :: FirstBinds(ls, i, k, v))
  {
    hide FirstBinds, First, ExportAll;
    EnvironThenFirst(environ, ls, k);
    FirstIs(ls, k, v);
  }

  lemma {:induction false} FirstIsAssigned(ls: seq<string>, k: string)
    requires First(ls, k).Some?
    ensures k in AssignAll(ls)
  {
    hide ParseLine, Settable;
    if First(ls[..|ls| - 1], k).Some? {
      FirstIsAssigned(ls[..|ls| - 1], k);
    }
  }

  /** From an empty environment the two loaders agree on a file exactly when, for every key it
      binds, the first acceptable assignment gives the same value as the last one. */
  lemma LoadersAgreeIff(content: string)
    requires !Load(content).tooLong
    ensures LoadInto(map[], content) == Load(content).env
            <==> forall k :: k in Load(content).env ==> First(Pieces(content), k) == Some(Load(content).env[k])
  {
    hide ParseLine, Settable, Pieces, ExportAll, AssignAll, First;
    var ls := Pieces(content);
    ReadableAll(ls);
    var a, b := ExportAll(map[], ls), AssignAll(ls);
    forall k
      ensures k in a <==> First(ls, k).Some?
      ensures k in a ==> a[k] == First(ls, k).value && k in b
    {
      EnvironThenFirst(map[], ls, k);
      if First(ls, k).Some? {
        FirstIsAssigned(ls, k);
      }
    }
  }

  /** The line binds a key of the map to its value there, in a form the environment accepts. */
  predicate Faithful(line: string, values: Env) {
    match ParseLine(line)
    case Some((k, v)) => k in values && values[k] == v && Settable(k, v)
    case None => false
  }

  lemma {:induction false} FirstOfFaithful(ls: seq<string>, values: Env, k: string)
    requires forall i :: 0 <= i < |ls| ==> Faithful(ls[i], values)
    ensures k in AssignAll(ls) ==> k in values && First(ls, k) == Some(values[k])
    ensures k !in AssignAll(ls) ==> First(ls, k) == None
  {
    hide ParseLine, Settable;
    if ls != [] {
      FirstOfFaithful(ls[..|ls| - 1], values, k);
      assert Faithful(ls[|ls| - 1], values);
    }
  }

  lemma PrintedAreFaithful(values: Env, it: seq<string>)
    requires Iterates(it, values)
    requires forall k :: Written(values, k) ==> WellFormed(k, values[k]) && Settable(k, values[k])
    ensures var ls := Readable(Pieces(Print(values, it)));
            && (forall i :: 0 <= i < |ls| ==> Faithful(ls[i], NonEmpty(values)))
            && AssignAll(ls) == NonEmpty(values) && Load(Print(values, it)).env == NonEmpty(values)
  {
    hide ParseLine, Settable, Pieces, Unlines, AssignAll, KeyOk, ValueOk, Fits;
    var ks := PrintedKeys(values, it);
    PrintedKeysFacts(values, it);
    RoundTripIff(values, it);
    var ls := LinesOf(values, ks);
    forall i | 0 <= i < |ls|
      ensures OneLine(ls[i]) && Fits(ls[i]) && Faithful(ls[i], NonEmpty(values))
    {
      assert ks[i] in ks;
      assert WellFormed(ks[i], values[ks[i]]);
      ParsesBackIff(ks[i], values[ks[i]]);
    }
    PiecesOfUnlines(ls);
    ReadableAll(ls);
  }

  /** A file the agent's printer wrote from well-formed bindings is read alike by both loaders,
      except that variables already set keep their value in the relay's process. */
  lemma PrintedReadsAlike(values: Env, it: seq<string>, environ: Env)
    requires Iterates(it, values)
    requires forall k :: Written(values, k) ==> WellFormed(k, values[k]) && Settable(k, values[k])
    ensures LoadInto(environ, Print(values, it)) == NonEmpty(values) + environ
    ensures Load(Print(values, it)).env == NonEmpty(values)
  {
    hide Faithful, Pieces, Readable, ExportAll, AssignAll, First, Load, Print, WellFormed, Settable;
    PrintedAreFaithful(values, it);
    var ls := Readable(Pieces(Print(values, it)));
    var a, b := LoadInto(environ, Print(values, it)), NonEmpty(values) + environ;
    forall k
      ensures k in a <==> k in b
      ensures k in a ==> a[k] == b[k]
    {
      EnvironThenFirst(environ, ls, k);
      FirstOfFaithful(ls, NonEmpty(values), k);
    }
  }
}
