/** The string operations agent.env handling is built from: strings.TrimSpace, IndexByte,
    HasPrefix, Split and Join on "\n", and bufio's line scanner. A string is a sequence of
    code points. */
module Text {
  import opened Utf8

  predicate IsSpace(c: char) {
    c in {'\t', '\n', '\U{0B}', '\U{0C}', '\r', ' ', '\U{85}', '\U{A0}', '\U{1680}',
          '\U{2028}', '\U{2029}', '\U{202F}', '\U{205F}', '\U{3000}'}
    || '\U{2000}' <= c <= '\U{200A}'
  }

  function TrimLeft(s: string): (t: string)
    ensures |t| <= |s|
  {
    if s != [] && IsSpace(s[0]) then TrimLeft(s[1..]) else s
  }

  function TrimRight(s: string): (t: string)
    ensures |t| <= |s|
  {
    if s != [] && IsSpace(s[|s| - 1]) then TrimRight(s[..|s| - 1]) else s
  }

  function Trim(s: string): (t: string)
    ensures |t| <= |s|
  {
    TrimRight(TrimLeft(s))
  }

  /** No space at either end. */
  predicate Trimmed(s: string) {
    s != [] ==> !IsSpace(s[0]) && !IsSpace(s[|s| - 1])
  }

  ghost predicate AllSpace(s: string) { forall i :: 0 <= i < |s| ==> IsSpace(s[i]) }

  lemma {:induction false} TrimLeftCuts(s: string)
    ensures TrimLeft(s) == s[|s| - |TrimLeft(s)|..]
    ensures AllSpace(s[..|s| - |TrimLeft(s)|])
    ensures TrimLeft(s) != [] ==> !IsSpace(TrimLeft(s)[0])
  {
    if s != [] && IsSpace(s[0]) {
      TrimLeftCuts(s[1..]);
      var n := |s| - |TrimLeft(s)|;
      assert s[..n] == [s[0]] + s[1..][..n - 1];
    }
  }

  lemma {:induction false} TrimRightCuts(s: string)
    ensures TrimRight(s) == s[..|TrimRight(s)|]
    ensures TrimRight(s) != [] ==> !IsSpace(TrimRight(s)[|TrimRight(s)| - 1])
  {
    if s != [] && IsSpace(s[|s| - 1]) {
      TrimRightCuts(s[..|s| - 1]);
    }
  }

  /** Trimming cuts a slice out of s, between its first and last non-space characters. */
  lemma TrimCuts(s: string)
    ensures var i := |s| - |TrimLeft(s)|; i + |Trim(s)| <= |s| && Trim(s) == s[i..i + |Trim(s)|]
    ensures AllSpace(s[..|s| - |TrimLeft(s)|])
    ensures Trimmed(Trim(s))
  {
    hide TrimLeft, TrimRight, IsSpace;
    TrimLeftCuts(s);
    TrimRightCuts(TrimLeft(s));
    if Trim(s) != [] {
      assert Trim(s)[0] == TrimLeft(s)[0];
    }
  }

  lemma {:induction false} TrimLeftSkips(a: string, t: string)
    requires AllSpace(a)
    ensures TrimLeft(a + t) == TrimLeft(t)
  {
    if a == [] {
      assert a + t == t;
    } else {
      assert (a + t)[1..] == a[1..] + t;
      TrimLeftSkips(a[1..], t);
    }
  }

  lemma {:induction false} TrimRightSkips(t: string, b: string)
    requires AllSpace(b)
    ensures TrimRight(t + b) == TrimRight(t)
  {
    if b == [] {
      assert t + b == t;
    } else {
      assert (t + b)[..|t + b| - 1] == t + b[..|b| - 1];
      TrimRightSkips(t, b[..|b| - 1]);
    }
  }

  /** Trimming takes off exactly the spaces around a trimmed text. */
  lemma TrimOfPadded(a: string, t: string, b: string)
    requires AllSpace(a) && AllSpace(b) && Trimmed(t)
    ensures Trim(a + t + b) == t
  {
    assert a + t + b == a + (t + b);
    TrimLeftSkips(a, t + b);
    if t == [] {
      assert t + b == b + [];
      TrimLeftSkips(b, []);
    } else {
      assert TrimLeft(t + b) == t + b;
      TrimRightSkips(t, b);
    }
  }

  lemma {:induction false} TrimRightDropsSpaces(s: string)
    ensures |TrimRight(s)| <= |s| && AllSpace(s[|TrimRight(s)|..])
  {
    if s != [] && IsSpace(s[|s| - 1]) {
      var front := s[..|s| - 1];
      TrimRightDropsSpaces(front);
      assert s[|TrimRight(front)|..] == front[|TrimRight(front)|..] + [s[|s| - 1]];
    } else {
      assert s[|s|..] == [];
    }
  }

  /** A text is its trimmed part with spaces around it. */
  lemma PadsAround(s: string) returns (a: string, b: string)
    ensures s == a + Trim(s) + b && AllSpace(a) && AllSpace(b) && Trimmed(Trim(s))
  {
    hide TrimLeft, TrimRight, IsSpace;
    TrimCuts(s);
    TrimLeftCuts(s);
    var l := TrimLeft(s);
    TrimRightDropsSpaces(l);
    TrimRightCuts(l);
    a, b := s[..|s| - |l|], l[|TrimRight(l)|..];
    assert s == a + l && l == TrimRight(l) + b;
  }

  lemma TrimOfTrimmed(s: string)
    requires Trimmed(s)
    ensures Trim(s) == s
  {
  }

  /** First position of c, or |s|. */
  function IndexOf(s: string, c: char): (n: nat)
    ensures n <= |s|
    ensures n < |s| ==> s[n] == c
  {
    if s == [] || s[0] == c then 0 else 1 + IndexOf(s[1..], c)
  }

  predicate Without(s: string, c: char) { forall i :: 0 <= i < |s| ==> s[i] != c }

  lemma {:induction false} IndexFirst(s: string, c: char)
    ensures Without(s[..IndexOf(s, c)], c)
  {
    if s != [] && s[0] != c {
      IndexFirst(s[1..], c);
      assert s[..IndexOf(s, c)] == [s[0]] + s[1..][..IndexOf(s, c) - 1];
    }
  }

  lemma {:induction false} IndexUnique(s: string, c: char, n: nat)
    requires n < |s| && s[n] == c && Without(s[..n], c)
    ensures IndexOf(s, c) == n
  {
    if n > 0 {
      assert s[0] == s[..n][0];
      assert s[1..][..n - 1] == s[..n][1..];
      IndexUnique(s[1..], c, n - 1);
    }
  }

  lemma {:induction false} IndexAbsent(s: string, c: char)
    requires Without(s, c)
    ensures IndexOf(s, c) == |s|
  {
    if s != [] {
      IndexAbsent(s[1..], c);
    }
  }

  lemma {:induction false} IndexNoLater(s: string, c: char, n: nat)
    requires n < |s| && s[n] == c
    ensures IndexOf(s, c) <= n
  {
    if n > 0 && s[0] != c {
      IndexNoLater(s[1..], c, n - 1);
    }
  }

  lemma WithoutConcat(s: string, c: char, m: nat, n: nat)
    requires m <= n <= |s| && Without(s[..m], c) && Without(s[m..n], c)
    ensures Without(s[..n], c)
  {
    assert s[..n] == s[..m] + s[m..n];
  }

  /* ---- Lines ---- */

  /** strings.Split(s, "\n"). */
  function Split(s: string): (ls: seq<string>)
    ensures ls != []
  {
    var n := IndexOf(s, '\n');
    if n == |s| then [s] else [s[..n]] + Split(s[n + 1..])
  }

  /** strings.Join(ls, "\n"). */
  function Join(ls: seq<string>): string {
    if ls == [] then "" else if |ls| == 1 then ls[0] else ls[0] + "\n" + Join(ls[1..])
  }

  /** What the line scanner delivers, before it strips a trailing '\r'. */
  function Pieces(s: string): seq<string> {
    if s == [] then []
    else
      var n := IndexOf(s, '\n');
      [s[..n]] + (if n == |s| then [] else Pieces(s[n + 1..]))
  }

  predicate OneLine(s: string) { Without(s, '\n') }

  ghost predicate AllOneLine(ls: seq<string>) { forall i :: 0 <= i < |ls| ==> OneLine(ls[i]) }

  lemma {:induction false} SplitLines(s: string)
    ensures AllOneLine(Split(s)) && Join(Split(s)) == s
  {
    var n := IndexOf(s, '\n');
    IndexFirst(s, '\n');
    if n == |s| {
      assert s[..n] == s;
    } else {
      var rest := s[n + 1..];
      SplitLines(rest);
      assert Split(s) == [s[..n]] + Split(rest);
      assert Split(s)[1..] == Split(rest);
      assert s == s[..n] + "\n" + rest;
    }
  }

  lemma IndexInLine(l: string, rest: string)
    requires OneLine(l)
    ensures IndexOf(l, '\n') == |l|
    ensures IndexOf(l + "\n" + rest, '\n') == |l|
  {
    var s := l + "\n" + rest;
    assert s[..|l|] == l;
    IndexUnique(s, '\n', |l|);
    IndexAbsent(l, '\n');
  }

  lemma {:induction false} SplitJoin(ls: seq<string>)
    requires ls != [] && AllOneLine(ls)
    ensures Split(Join(ls)) == ls
  {
    hide IndexOf;
    var rest := Join(ls[1..]);
    IndexInLine(ls[0], rest);
    if |ls| > 1 {
      SplitJoin(ls[1..]);
      var s := Join(ls);
      assert s == ls[0] + "\n" + rest && s[..|ls[0]|] == ls[0] && s[|ls[0]| + 1..] == rest;
    }
  }

  /** Split and the scanner see the same lines, but for an empty one after a final newline. */
  lemma {:induction false} SplitIsPieces(s: string)
    ensures Split(s) == Pieces(s) + (if s == [] || s[|s| - 1] == '\n' then [""] else [])
  {
    hide IndexOf;
    var n := IndexOf(s, '\n');
    IndexFirst(s, '\n');
    if n == |s| {
      assert s[..n] == s;
    } else {
      var rest := s[n + 1..];
      SplitIsPieces(rest);
      assert rest == [] ==> s[|s| - 1] == '\n';
      assert rest != [] ==> rest[|rest| - 1] == s[|s| - 1];
      assert Split(s) == [s[..n]] + Split(rest);
    }
  }

  lemma PiecesAreLines(s: string)
    ensures AllOneLine(Pieces(s))
  {
    hide Pieces, Split, IndexOf;
    SplitIsPieces(s);
    SplitLines(s);
    assert forall i :: 0 <= i < |Pieces(s)| ==> Pieces(s)[i] == Split(s)[i];
  }

  /** Lines each ended by a newline come back as they were written. */
  function Unlines(ls: seq<string>): string {
    if ls == [] then "" else ls[0] + "\n" + Unlines(ls[1..])
  }

  lemma {:induction false} PiecesOfUnlines(ls: seq<string>)
    requires AllOneLine(ls)
    ensures Pieces(Unlines(ls)) == ls
  {
    if ls != [] {
      var rest := Unlines(ls[1..]);
      var s := Unlines(ls);
      assert s == ls[0] + "\n" + rest;
      IndexInLine(ls[0], rest);
      assert s[..|ls[0]|] == ls[0] && s[|ls[0]| + 1..] == rest;
      PiecesOfUnlines(ls[1..]);
    }
  }

  /** The lines that a list of texts amounts to when each is ended by a newline. */
  function SplitAll(ls: seq<string>): seq<string> {
    if ls == [] then [] else Split(ls[0]) + SplitAll(ls[1..])
  }

  lemma {:induction false} SplitAllSnoc(ls: seq<string>, l: string)
    ensures SplitAll(ls + [l]) == SplitAll(ls) + Split(l)
  {
    if ls == [] {
      assert [l][1..] == [] && [] + [l] == [l];
    } else {
      assert (ls + [l])[1..] == ls[1..] + [l];
      SplitAllSnoc(ls[1..], l);
    }
  }

  lemma {:induction false} PiecesOfText(l: string, rest: string)
    ensures Pieces(l + "\n" + rest) == Split(l) + Pieces(rest)
  {
    hide IndexOf;
    var s, n := l + "\n" + rest, IndexOf(l, '\n');
    IndexFirst(l, '\n');
    assert s[..n] == l[..n];
    IndexUnique(s, '\n', n);
    if n == |l| {
      assert s[n + 1..] == rest && l[..n] == l;
    } else {
      assert s[n + 1..] == l[n + 1..] + "\n" + rest;
      PiecesOfText(l[n + 1..], rest);
    }
  }

  lemma {:induction false} PiecesOfTexts(ls: seq<string>)
    ensures Pieces(Unlines(ls)) == SplitAll(ls)
  {
    hide Split;
    if ls != [] {
      PiecesOfText(ls[0], Unlines(ls[1..]));
      PiecesOfTexts(ls[1..]);
    }
  }

  /** A text and one more line in front of its first. */
  lemma SplitPrefixed(x: string, v: string)
    requires OneLine(x)
    ensures Split(x + v) == [x + Split(v)[0]] + Split(v)[1..]
  {
    hide IndexOf;
    var s, n := x + v, IndexOf(v, '\n');
    IndexFirst(v, '\n');
    assert s[..|x| + n] == x + v[..n];
    if n < |v| {
      IndexUnique(s, '\n', |x| + n);
      assert s[|x| + n + 1..] == v[n + 1..];
    } else {
      assert v[..n] == v;
      IndexAbsent(s, '\n');
    }
  }

  lemma {:induction false} UnlinesSnoc(ls: seq<string>, l: string)
    ensures Unlines(ls + [l]) == Unlines(ls) + l + "\n"
  {
    if ls == [] {
      assert [l][1..] == [];
    } else {
      assert (ls + [l])[1..] == ls[1..] + [l];
      UnlinesSnoc(ls[1..], l);
    }
  }

  /** Size of a line in UTF-8. */
  function ByteLength(s: string): nat {
    if s == [] then 0 else |EncodeRune(s[0])| + ByteLength(s[1..])
  }
}
