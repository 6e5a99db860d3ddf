/** What one line of agent.env means, however it is written: blanks around its parts, an
    `export ` before it, quotes around its value. */
module EnvLine {
  import opened Prelude
  import opened Text
  import opened EnvFile
  import opened EnvRoundTrip
  import opened EnvReadBack
  import Utf8

  /** A line as a person may write it: [blanks][export ]key[blanks]=[blanks]value[blanks]. */
  function Typed(a: string, x: string, k: string, b: string, c: string, w: string, d: string): string {
    a + x + k + b + "=" + c + w + d
  }

  /** The blanks are blanks, and the key is one: not empty, no blank at its ends, no `=` in it;
      and unless the line begins `export `, nothing that would make it a comment or an export. */
  ghost predicate WellTyped(a: string, x: string, k: string, b: string, c: string, w: string, d: string) {
    && AllSpace(a) && AllSpace(b) && AllSpace(c) && AllSpace(d) && Trimmed(w)
    && x in {"", "export "} && k != "" && Trimmed(k) && Without(k, '=')
    && (x == "" ==> k[0] != '#' && !("export " <= k + b))
  }

  /** Trimming takes the blanks off both ends, whatever stands between them. */
  lemma TrimAgain(raw: string)
    ensures Trim(DropCR(raw)) == Trim(raw)
  {
    hide Trim, TrimLeft, TrimRight, IsSpace;
    var u := DropCR(raw);
    var a, b := PadsAround(u);
    var d := if u == raw then "" else "\r";
    assert raw == a + Trim(u) + (b + d);
    CarriageReturn();
    TrimOfPadded(a, Trim(u), b + d);
  }

  lemma CarriageReturn()
    ensures AllSpace("\r")
  {
  }

  lemma WholeLineTrimmed(a: string, x: string, k: string, b: string, c: string, w: string, d: string)
    requires WellTyped(a, x, k, b, c, w, d)
    ensures Trim(Typed(a, x, k, b, c, w, d)) == x + k + b + "=" + (if w == "" then "" else c + w)
  {
    hide Trim, IsSpace;
    var head := x + k + b + "=";
    HeadTrimmed(x, k, b);
    if w == "" {
      assert Typed(a, x, k, b, c, w, d) == a + head + (c + d);
      BlanksJoin(c, d);
      TrimOfPadded(a, head, c + d);
    } else {
      BodyTrimmed(head, c, w);
      assert Typed(a, x, k, b, c, w, d) == a + (head + (c + w)) + d;
      TrimOfPadded(a, head + (c + w), d);
    }
  }

  lemma BlanksJoin(c: string, d: string)
    requires AllSpace(c) && AllSpace(d)
    ensures AllSpace(c + d)
  {
    hide IsSpace;
  }

  lemma BodyTrimmed(head: string, c: string, w: string)
    requires Trimmed(head) && head != "" && Trimmed(w) && w != ""
    ensures Trimmed(head + (c + w))
  {
    hide IsSpace;
    var body := head + (c + w);
    assert body[0] == head[0] && body[|body| - 1] == w[|w| - 1];
  }

  lemma HeadTrimmed(x: string, k: string, b: string)
    requires x in {"", "export "} && k != "" && Trimmed(k)
    ensures var head := x + k + b + "="; Trimmed(head) && head != "" && head[0] == if x == "" then k[0] else 'e'
  {
  }

  /** What is left after the blanks and the `export `. */
  lemma BodyOf(x: string, k: string, b: string, rest: string)
    requires x in {"", "export "} && k != "" && (x == "" ==> k[0] != '#' && !("export " <= k + b))
    ensures var line := x + k + b + "=" + rest;
            line != "" && !("#" <= line) && StripExport(line) == k + b + "=" + rest
  {
    var line, body := x + k + b + "=" + rest, k + b + "=" + rest;
    if x == "" {
      assert line == body && line[0] == k[0];
      if "export " <= line {
        ExportInKey(k + b, rest);
      }
    } else {
      assert line[0] == x[0];
      assert line == x + body && line[..7] == x;
    }
  }

  lemma ExportInKey(u: string, rest: string)
    requires "export " <= u + "=" + rest
    ensures "export " <= u
  {
    var word, line := "export ", u + "=" + rest;
    assert forall i :: 0 <= i < 7 ==> line[i] == word[i];
    assert line[|u|] == '=';
    assert u[..7] == line[..7];
  }

  lemma SplitsAtEquals(k: string, b: string, rest: string)
    requires k != "" && Trimmed(k) && Without(k, '=') && AllSpace(b)
    ensures ParseBody(k + b + "=" + rest) == Some((k, Unquote(Trim(rest))))
  {
    hide Trim, Unquote, IsSpace;
    var body, n, none := k + b + "=" + rest, |k + b|, "";
    SpacesHaveNoEquals(b);
    assert body[..n] == k + b && body[n] == '=' && body[n + 1..] == rest;
    IndexUnique(body, '=', n);
    assert none + k + b == k + b;
    TrimOfPadded(none, k, b);
  }

  /** The line binds its key, and to its value without the quotes around it. */
  lemma TypedBinds(a: string, x: string, k: string, b: string, c: string, w: string, d: string)
    requires WellTyped(a, x, k, b, c, w, d)
    ensures ParseLine(Typed(a, x, k, b, c, w, d)) == Some((k, Unquote(w)))
  {
    hide Trim, TrimLeft, TrimRight, Unquote, StripExport, ParseBody, IsSpace, DropCR;
    var rest, none := (if w == "" then "" else c + w), "";
    TrimAgain(Typed(a, x, k, b, c, w, d));
    WholeLineTrimmed(a, x, k, b, c, w, d);
    BodyOf(x, k, b, rest);
    SplitsAtEquals(k, b, rest);
    if w == "" {
      TrimOfTrimmed(none);
    } else {
      assert c + w + none == c + w;
      TrimOfPadded(c, w, none);
    }
  }

  /** A value between two quotes of one kind is what stands between them, blanks and all. */
  lemma QuotedValue(a: string, x: string, k: string, b: string, c: string, v: string, d: string, q: char)
    requires q == '"' || q == '\''
    requires WellTyped(a, x, k, b, c, [q] + v + [q], d)
    ensures ParseLine(Typed(a, x, k, b, c, [q] + v + [q], d)) == Some((k, v))
  {
    hide ParseLine, Typed, WellTyped;
    var w := [q] + v + [q];
    assert w[0] == w[|w| - 1] == q && w[1..|w| - 1] == v;
    TypedBinds(a, x, k, b, c, w, d);
  }

  /** Any other value is taken as it stands. */
  lemma PlainValue(a: string, x: string, k: string, b: string, c: string, w: string, d: string)
    requires WellTyped(a, x, k, b, c, w, d)
    requires |w| < 2 || w[0] != w[|w| - 1] || (w[0] != '"' && w[0] != '\'')
    ensures ParseLine(Typed(a, x, k, b, c, w, d)) == Some((k, w))
  {
    hide ParseLine, Typed, WellTyped;
    TypedBinds(a, x, k, b, c, w, d);
  }

  /** A blank line, a comment, and a line without `=` bind nothing. */
  lemma BindsNothing(raw: string, a: string, rest: string)
    requires AllSpace(a)
    ensures AllSpace(raw) ==> ParseLine(raw) == None
    ensures raw == a + "#" + rest ==> ParseLine(raw) == None
    ensures Without(raw, '=') ==> ParseLine(raw) == None
  {
    if AllSpace(raw) {
      BlankLine(raw);
    }
    if raw == a + "#" + rest {
      CommentLine(a, rest);
    }
    if Without(raw, '=') {
      NoEquals(raw);
    }
  }

  lemma BlankLine(raw: string)
    requires AllSpace(raw)
    ensures ParseLine(raw) == None
  {
    hide Trim, DropCR, ParseBody, IsSpace;
    var none: string := "";
    TrimAgain(raw);
    assert raw + none + none == raw;
    TrimOfPadded(raw, none, none);
  }

  lemma CommentLine(a: string, rest: string)
    requires AllSpace(a)
    ensures ParseLine(a + "#" + rest) == None
  {
    hide Trim, TrimLeft, TrimRight, DropCR, ParseBody, IsSpace;
    var u, raw := "#" + rest, a + "#" + rest;
    TrimAgain(raw);
    var p, q := PadsAround(u);
    HashIsNoSpace();
    InkFirst(p, Trim(u), q);
    assert u == Trim(u) + q && raw == a + (Trim(u) + q);
    assert raw == a + Trim(u) + q;
    TrimOfPadded(a, Trim(u), q);
  }

  lemma InkFirst(p: string, m: string, q: string)
    requires AllSpace(p) && AllSpace(q) && p + m + q != "" && !IsSpace((p + m + q)[0])
    ensures p == "" && m != "" && m[0] == (p + m + q)[0]
  {
  }

  lemma HashIsNoSpace()
    ensures !IsSpace('#')
  {
  }

  lemma NoEquals(raw: string)
    requires Without(raw, '=')
    ensures ParseLine(raw) == None
  {
    hide ParseLine, IndexOf, Laid;
    if ParseLine(raw).Some? {
      var from, eq, hi := Shape(raw);
      EqualsFound(raw, from, eq, hi);
    }
  }

  lemma EqualsFound(raw: string, from: nat, eq: nat, hi: nat)
    requires Laid(raw, from, eq, hi)
    ensures !Without(raw, '=')
  {
    hide ParseLine;
    assert raw[from + eq] == '=';
  }

  /** The last line that binds a key gives it its value. */
  lemma LastWins(ls: seq<string>, i: nat, k: string, v: string)
    requires i < |ls| && ParseLine(ls[i]) == Some((k, v))
    requires forall j :: i < j < |ls| && ParseLine(ls[j]).Some? ==> ParseLine(ls[j]).value.0 != k
    ensures k in AssignAll(ls) && AssignAll(ls)[k] == v
    decreases |ls|
  {
    hide ParseLine;
    if i < |ls| - 1 {
      LastWins(ls[..|ls| - 1], i, k, v);
    }
  }

  /* ---- The file as a whole ---- */

  lemma {:induction false} ByteLengthIs(s: string)
    ensures ByteLength(s) == |Utf8.Encode(Utf8.Runes(s))|
  {
    hide Utf8.EncodeRune;
    if s != "" {
      ByteLengthIs(s[1..]);
      assert Utf8.Runes(s)[1..] == Utf8.Runes(s[1..]);
    }
  }

  /** The line takes 64 KiB or more in UTF-8. */
  predicate TooWide(l: string) { |Utf8.Encode(Utf8.Runes(l))| >= 65536 }

  lemma FitsIff(l: string)
    ensures Fits(l) <==> !TooWide(l)
  {
    hide ByteLength, Utf8.Encode, Utf8.Runes;
    ByteLengthIs(l);
  }

  ghost predicate SomeTooWide(ls: seq<string>) { exists i :: 0 <= i < |ls| && TooWide(ls[i]) }

  /** A file cannot be read to its end exactly when one of its lines takes 64 KiB or more. */
  lemma TooLongIff(content: string)
    ensures Load(content).tooLong <==> SomeTooWide(Pieces(content))
  {
    hide Pieces, Fits, SomeTooWide, AssignAll, Readable, AllFit;
    ReadableAll(Pieces(content));
    AllFitIff(Pieces(content));
  }

  lemma AllFitIff(ls: seq<string>)
    ensures AllFit(ls) <==> !SomeTooWide(ls)
  {
    hide Fits, TooWide;
    forall i | 0 <= i < |ls|
      ensures Fits(ls[i]) <==> !TooWide(ls[i])
    {
      FitsIff(ls[i]);
    }
  }

  /** The place of a key in the printed file; all but five come last. */
  function Place(k: string): nat {
    if k == "HASFY_API_URL" then 0 else if k == "HASFY_RELAY_URL" then 1 else if k == "HASFY_DEVICE_ID" then 2
    else if k == "HASFY_ORG_ID" then 3 else if k == "HASFY_DEVICE_ENROLLMENT_TOKEN" then 4 else 5
  }

  ghost predicate Ordered(ks: seq<string>) {
    forall i, j :: 0 <= i < j < |ks| ==> Place(ks[i]) < Place(ks[j]) || Place(ks[i]) == Place(ks[j]) == 5
  }

  lemma {:induction false} FilterOrdered(ks: seq<string>, p: string -> bool)
    requires Ordered(ks)
    ensures Ordered(Filter(ks, p)) && forall k :: k in Filter(ks, p) ==> k in ks
  {
    hide Place;
    if ks != [] {
      var front := ks[..|ks| - 1];
      FilterOrdered(front, p);
      var f := Filter(front, p);
      forall i | 0 <= i < |f|
        ensures Place(f[i]) < Place(ks[|ks| - 1]) || Place(f[i]) == Place(ks[|ks| - 1]) == 5
      {
        assert f[i] in front;
        var j :| 0 <= j < |front| && front[j] == f[i];
      }
    }
  }

  /** The five keys of an enrolment are printed first, in their fixed order. */
  lemma PrintedInOrder(values: Env, it: seq<string>)
    ensures Ordered(PrintedKeys(values, it))
  {
    hide Place;
    OrderIsOrdered();
    FilterOrdered(ORDER, k => Written(values, k));
    KeyMembers(values, ORDER, it);
    var a, b := KnownKeys(values, ORDER), OtherKeys(values, it);
    forall i | 0 <= i < |b|
      ensures Place(b[i]) == 5
    {
      assert b[i] in b;
      OthersLast(b[i]);
    }
    forall i | 0 <= i < |a|
      ensures Place(a[i]) < 5
    {
      assert a[i] in a;
      OthersLast(a[i]);
    }
  }

  lemma OrderIsOrdered()
    ensures Ordered(ORDER)
  {
  }

  lemma OthersLast(k: string)
    ensures k in ORDER <==> Place(k) < 5
    ensures Place(k) <= 5
  {
  }
}
