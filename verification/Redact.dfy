/** internal/audit/redact.go: replacing each match of a pattern by the marker, and what is left
    of the text by a whole chain of such passes. */
module Redaction {
  import opened Prelude
  import opened Utf8
  import opened Patterns

  /* ---- ReplaceAllString and the chain ---- */

  const MARKER: Text :=
    [OPEN, Rune('R'), Rune('E'), Rune('D'), Rune('A'), Rune('C'), Rune('T'), Rune('E'), Rune('D'), CLOSE]

  /** A non-empty match starts here. */
  predicate Hit(re: Redactor, s: Text) {
    FirstMatch(re, s).Some? && FirstMatch(re, s).value > 0
  }

  /** Scan from the left, replacing each (non-empty) match by the marker. */
  function Replace(re: Redactor, s: Text): Text {
    if s == [] then []
    else if Hit(re, s) then MARKER + Replace(re, s[FirstMatch(re, s).value..])
    else [s[0]] + Replace(re, s[1..])
  }

  function Chain(res: seq<Redactor>, s: Text): Text {
    if res == [] then s else Chain(res[1..], Replace(res[0], s))
  }

  /** No substring of s is in the pattern's language. */
  ghost predicate Clean(re: Redactor, s: Text) {
    forall i, j :: 0 <= i <= j <= |s| ==> !MatchesAny(re, s[i..j])
  }

  /* ---- Anchored patterns ---- */

  /** Anchored: its words contain no bracket and are longer than the marker's letters. */
  predicate Anchored(re: Redactor) {
    forall k :: 0 <= k < |re| ==> NoBrackets(re[k]) && MinLength(re[k]) > |MARKER| - 2
  }

  lemma AnchoredWords(re: Redactor, w: Text)
    requires Anchored(re) && MatchesAny(re, w)
    ensures Solid(w)
  {
    var k :| 0 <= k < |re| && Matches(re[k], w);
    WordsOf(re[k], w);
  }

  /* ---- Substrings of a rewritten text ---- */

  /** A text stays as it is up to the first place where a match starts. */
  lemma {:induction false} Unhit(re: Redactor, s: Text, n: nat)
    requires n <= |s| && NoHits(re, s, n)
    ensures Replace(re, s) == s[..n] + Replace(re, s[n..])
  {
    hide Hit, Replace, NoHits;
    if n == 0 {
      assert s[0..] == s;
    } else {
      NoHitsTail(re, s, n);
      OneKept(re, s);
      Unhit(re, s[1..], n - 1);
      TailSlices(s, n);
    }
  }

  /** No match starts in the first n characters. */
  predicate NoHits(re: Redactor, s: Text, n: nat)
    requires n <= |s|
  {
    forall k :: 0 <= k < n ==> !Hit(re, s[k..])
  }

  lemma NoHitsTail(re: Redactor, s: Text, n: nat)
    requires 0 < n <= |s| && NoHits(re, s, n)
    ensures !Hit(re, s) && NoHits(re, s[1..], n - 1)
  {
    hide Hit;
    assert s[0..] == s;
    forall k | 0 <= k < n - 1
      ensures !Hit(re, s[1..][k..])
    {
      TailSlices(s, k + 1);
    }
  }

  lemma TailSlices(s: Text, n: nat)
    requires 0 < n <= |s|
    ensures s[1..][n - 1..] == s[n..] && [s[0]] + s[1..][..n - 1] == s[..n]
  {
  }

  lemma OneKept(re: Redactor, s: Text)
    requires s != [] && !Hit(re, s)
    ensures Replace(re, s) == [s[0]] + Replace(re, s[1..])
  {
    hide Hit, FirstMatch;
  }

  /** No match starts before the first bracket of a rewritten text. */
  lemma {:induction false} NoHitBefore(re: Redactor, s: Text, j: nat)
    requires j <= |Replace(re, s)| && OPEN !in Replace(re, s)[..j]
    ensures j <= |s| && forall x :: 0 <= x < j ==> !Hit(re, s[x..])
  {
    hide Hit, FirstMatch;
    if j > 0 {
      FirstStep(re, s, j);
      NoHitBefore(re, s[1..], j - 1);
      forall x | 0 <= x < j
        ensures !Hit(re, s[x..])
      {
        assert if x == 0 then s[x..] == s else s[x..] == s[1..][x - 1..];
      }
    }
  }

  lemma FirstStep(re: Redactor, s: Text, j: nat)
    requires 0 < j <= |Replace(re, s)| && OPEN !in Replace(re, s)[..j]
    ensures s != [] && !Hit(re, s) && j - 1 <= |Replace(re, s[1..])| && OPEN !in Replace(re, s[1..])[..j - 1]
  {
    hide Hit, FirstMatch;
    var t, u := Replace(re, s), Replace(re, s[1..]);
    assert t[0] in t[..j];
    assert t == [s[0]] + u;
    assert u[..j - 1] == t[..j][1..];
  }

  /** Text before the first bracket of a rewritten text is untouched, no match was found in
      it, and what follows is the rewriting of what followed. */
  lemma PrefixKept(re: Redactor, s: Text, j: nat)
    requires j <= |Replace(re, s)| && OPEN !in Replace(re, s)[..j]
    ensures j <= |s| && s[..j] == Replace(re, s)[..j] && Replace(re, s)[j..] == Replace(re, s[j..])
    ensures forall x :: 0 <= x < j ==> !Hit(re, s[x..])
  {
    hide Hit, Replace;
    NoHitBefore(re, s, j);
    Unhit(re, s, j);
  }

  /** Text that cannot stand, even partly, in a marker. */
  predicate Solid(w: Text) {
    && w != [] && OPEN !in w && CLOSE !in w
    && (|w| > |MARKER| - 2 || exists n :: 0 <= n < |w| && w[n] !in MARKER)
  }

  lemma InMarker(t: Text, i: nat, j: nat)
    requires MARKER <= t && i < |MARKER| && i < j <= |t|
    ensures !Solid(t[i..j])
  {
    var w := t[i..j];
    assert w[0] == t[i] == MARKER[i];
    if i > 0 && j > 9 {
      assert w[9 - i] == t[9] == CLOSE;
    } else if i > 0 {
      assert forall n :: 0 <= n < |w| ==> w[n] == MARKER[i + n];
    }
  }

  /** w occurs in s at a, where the pass found no match; after it the pass produced `rest`. */
  predicate OriginAt(re: Redactor, s: Text, w: Text, rest: Text, a: nat) {
    a + |w| <= |s| && s[a..][..|w|] == w && !Hit(re, s[a..]) && rest == Replace(re, s[a + |w|..])
  }

  /** A solid piece of a rewritten text stood in the original too, at a place where the pass
      found no match, and what follows it is the rewriting of what followed it there. */
  lemma {:induction false} SurvivorOrigin(re: Redactor, s: Text, i: nat, j: nat) returns (a: nat)
    requires i < j <= |Replace(re, s)| && Solid(Replace(re, s)[i..j])
    ensures OriginAt(re, s, Replace(re, s)[i..j], Replace(re, s)[j..], a)
    ensures i > 0 ==> a > 0
    decreases |s|
  {
    hide Solid, FirstMatch, Hit, Replace;
    if !Hit(re, s) && i == 0 {
      PrefixOrigin(re, s, j);
      a := 0;
    } else {
      Unroll(re, s, i, j);
      var n, k := StepLength(re, s), |StepOutput(re, s)|;
      a := SurvivorOrigin(re, s[n..], i - k, j - k);
      assert s[n..][a..] == s[a + n..] && s[n..][a + (j - i)..] == s[a + n + (j - i)..];
      a := a + n;
    }
  }

  /** How far the pass goes in one step, and what it produces. */
  function StepLength(re: Redactor, s: Text): nat { if Hit(re, s) then FirstMatch(re, s).value else 1 }
  function StepOutput(re: Redactor, s: Text): Text
    requires s != []
  {
    if Hit(re, s) then MARKER else [s[0]]
  }

  /** A solid piece that is not at the very start lies behind the first step's output. */
  lemma Unroll(re: Redactor, s: Text, i: nat, j: nat)
    requires i < j <= |Replace(re, s)| && Solid(Replace(re, s)[i..j]) && (Hit(re, s) || i > 0)
    ensures s != [] && 0 < StepLength(re, s) <= |s| && |StepOutput(re, s)| <= i
    ensures Replace(re, s) == StepOutput(re, s) + Replace(re, s[StepLength(re, s)..])
    ensures var k, u := |StepOutput(re, s)|, Replace(re, s[StepLength(re, s)..]);
            j - k <= |u| && Replace(re, s)[i..j] == u[i - k..j - k] && Replace(re, s)[j..] == u[j - k..]
  {
    hide Solid, FirstMatch;
    var t, head, u := Replace(re, s), StepOutput(re, s), Replace(re, s[StepLength(re, s)..]);
    assert t == head + u;
    if Hit(re, s) && i < |MARKER| {
      InMarker(t, i, j);
    }
    SliceOfTail(head, u, i, j);
  }

  lemma SliceOfTail(x: Text, y: Text, i: nat, j: nat)
    requires |x| <= i <= j <= |x| + |y|
    ensures (x + y)[i..j] == y[i - |x|..j - |x|] && (x + y)[j..] == y[j - |x|..]
  {
  }

  lemma PrefixOrigin(re: Redactor, s: Text, j: nat)
    requires j <= |Replace(re, s)| && Solid(Replace(re, s)[0..j]) && !Hit(re, s)
    ensures OriginAt(re, s, Replace(re, s)[0..j], Replace(re, s)[j..], 0)
  {
    assert Replace(re, s)[..j] == Replace(re, s)[0..j];
    PrefixKept(re, s, j);
    assert s[0..] == s;
  }

  /** No pass, whatever it matches, can create a match of an anchored pattern. */
  lemma PassKeepsClean(p: Redactor, re: Redactor, s: Text)
    requires Anchored(p) && Clean(p, s)
    ensures Clean(p, Replace(re, s))
  {
    hide Anchored, MatchesAny, OriginAt, Replace;
    var t := Replace(re, s);
    forall i, j | 0 <= i <= j <= |t| && MatchesAny(p, t[i..j])
      ensures false
    {
      AnchoredWords(p, t[i..j]);
      var a := SurvivorOrigin(re, s, i, j);
      OriginIsSubstring(p, re, s, t[i..j], t[j..], a);
    }
  }

  lemma OriginIsSubstring(p: Redactor, re: Redactor, s: Text, w: Text, rest: Text, a: nat)
    requires OriginAt(re, s, w, rest, a) && MatchesAny(p, w)
    ensures !Clean(p, s)
  {
    assert s[a..a + |w|] == s[a..][..|w|];
  }

  /** An anchored pattern's own pass leaves no match of it. */
  lemma OwnPassCleans(p: Redactor, s: Text)
    requires Anchored(p)
    ensures Clean(p, Replace(p, s))
  {
    hide Anchored, MatchesAny, Replace;
    var t := Replace(p, s);
    forall i, j | 0 <= i <= j <= |t| && MatchesAny(p, t[i..j])
      ensures false
    {
      AnchoredWords(p, t[i..j]);
      var a := SurvivorOrigin(p, s, i, j);
      FoundWhereItStarts(p, s[a..], j - i);
    }
  }

  lemma FoundWhereItStarts(p: Redactor, s: Text, e: nat)
    requires Anchored(p) && e <= |s| && MatchesAny(p, s[..e])
    ensures Hit(p, s)
  {
    FirstMatchComplete(p, s, e);
    FirstMatchSound(p, s);
    AnchoredWords(p, s[..FirstMatch(p, s).value]);
  }

  /** The chain leaves no match of any anchored pattern it contains, whatever the other
      patterns are and in whatever order they run. */
  lemma {:induction false} ChainCleans(res: seq<Redactor>, n: nat, s: Text)
    requires n < |res| && Anchored(res[n])
    ensures Clean(res[n], Chain(res, s))
  {
    var t := Replace(res[0], s);
    if n == 0 {
      OwnPassCleans(res[0], s);
      ChainKeepsClean(res[0], res[1..], t);
    } else {
      ChainCleans(res[1..], n - 1, t);
    }
  }

  lemma {:induction false} ChainKeepsClean(p: Redactor, res: seq<Redactor>, s: Text)
    requires Anchored(p) && Clean(p, s)
    ensures Clean(p, Chain(res, s))
  {
    if res != [] {
      PassKeepsClean(p, res[0], s);
      ChainKeepsClean(p, res[1..], Replace(res[0], s));
    }
  }

  /** Invalid octets are never brought together to spell a code point: between any two that a
      pass leaves there is what was there before, or a marker. */
  lemma PassIsCanonical(re: Redactor, s: Text)
    requires Canonical(s)
    ensures Canonical(Replace(re, s))
  {
    hide Replace, Hit, FirstMatch, Bads, EncodeRune, Solid;
    var t := Replace(re, s);
    forall i, j, c: char | 0 <= i <= j <= |t|
      ensures t[i..j] != Bads(EncodeRune(c))
    {
      if t[i..j] == Bads(EncodeRune(c)) {
        BadsAreSolid(c);
        var a := SurvivorOrigin(re, s, i, j);
        Reappears(s, t[i..j], a, c);
      }
    }
  }

  lemma BadsAreSolid(c: char)
    ensures Bads(EncodeRune(c)) != [] && Solid(Bads(EncodeRune(c)))
  {
    hide EncodeRune;
    assert Bads(EncodeRune(c))[0].Bad?;
  }

  lemma Reappears(s: Text, w: Text, a: nat, c: char)
    requires a + |w| <= |s| && s[a..][..|w|] == w && w == Bads(EncodeRune(c))
    ensures !Canonical(s)
  {
    hide EncodeRune;
    assert s[a..a + |w|] == s[a..][..|w|];
  }

  lemma {:induction false} ChainIsCanonical(res: seq<Redactor>, s: Text)
    requires Canonical(s)
    ensures Canonical(Chain(res, s))
  {
    hide Canonical, Replace;
    if res != [] {
      PassIsCanonical(res[0], s);
      ChainIsCanonical(res[1..], Replace(res[0], s));
    }
  }

  lemma CleanHasNoMatch(re: Redactor, s: Text)
    requires Clean(re, s)
    ensures FirstMatch(re, s) == None
  {
    var m := FirstMatch(re, s);
    assert m.Some? ==> s[0..m.value] == s[..m.value];
    if m.Some? {
      FirstMatchSound(re, s);
    }
  }

  /** A pass over a clean text changes nothing. */
  lemma {:induction false} CleanIsFixed(re: Redactor, s: Text)
    requires Clean(re, s)
    ensures Replace(re, s) == s
  {
    if s != [] {
      CleanHasNoMatch(re, s);
      forall i, j | 0 <= i <= j <= |s[1..]|
        ensures !MatchesAny(re, s[1..][i..j])
      {
        SliceOfSlice(s, 1, |s|, i, j);
        assert s[1..|s|] == s[1..];
      }
      CleanIsFixed(re, s[1..]);
    }
  }

  /** Passes over a text clean of them can be skipped. */
  lemma {:induction false} SkipCleanPasses(res: seq<Redactor>, n: nat, s: Text)
    requires n <= |res| && forall k :: 0 <= k < n ==> Clean(res[k], s)
    ensures Chain(res, s) == Chain(res[n..], s)
  {
    if n > 0 {
      CleanIsFixed(res[0], s);
      SkipCleanPasses(res[1..], n - 1, s);
      assert res[1..][n - 1..] == res[n..];
    } else {
      assert res[0..] == res;
    }
  }
}
