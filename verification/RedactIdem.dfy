/** When redaction is idempotent. */
module RedactIdem {
  import opened Prelude
  import opened Utf8
  import opened Patterns
  import opened Redaction
  import opened RedactChain
  import opened RedactLoose

  /** The last pattern is a keyword and its separator, then at least six value characters. */
  const SEPARATOR: Pattern := [GAP, Exactly(OneOf(":="), 1), GAP, Optional(OneOf("\"'"))]
  const VALUE: Item := AtLeast(NoneOf(SPACES + "\"'"), 6)
  const HEADS: Redactor :=
    [AnyCase("password") + SEPARATOR, AnyCase("passwd") + SEPARATOR, AnyCase("secret") + SEPARATOR,
     AnyCase("token") + SEPARATOR,
     AnyCase("api") + [Optional(OneOf("_-"))] + AnyCase("key") + SEPARATOR]

  lemma KeyValueShape()
    ensures |KEY_VALUE| == |HEADS| == 5
    ensures forall k :: 0 <= k < 5 ==> KEY_VALUE[k] == HEADS[k] + [VALUE]
  {
    assert ASSIGNED == SEPARATOR + [VALUE];
    assert KEY_VALUE[0] == HEADS[0] + [VALUE];
    assert KEY_VALUE[1] == HEADS[1] + [VALUE];
    assert KEY_VALUE[2] == HEADS[2] + [VALUE];
    assert KEY_VALUE[3] == HEADS[3] + [VALUE];
    assert KEY_VALUE[4] == HEADS[4] + [VALUE];
  }

  lemma SeparatorFacts(p: Pattern)
    requires NoBrackets(p)
    ensures NoBrackets(p + SEPARATOR)
    ensures forall h :: Matches(p + SEPARATOR, h) ==> Solid(h)
  {
    var q := p + SEPARATOR;
    assert forall i :: 0 <= i < |q| ==> q[i] == if i < |p| then p[i] else SEPARATOR[i - |p|];
    forall h | Matches(q, h)
      ensures Solid(h)
    {
      WordsOf(q, h);
      assert q[|p| + 1] == SEPARATOR[1];
      NeedsChar(q, |p| + 1, h);
    }
  }

  /** A head cannot stand in the marker: it has a separator. */
  lemma HeadIsSolid(k: nat, h: Text)
    requires k < 5 && Matches(HEADS[k], h)
    ensures Solid(h)
  {
    hide AnyCase, Matches;
    if k == 4 {
      AnyCaseNoBrackets("api");
      AnyCaseNoBrackets("key");
      SeparatorFacts(AnyCase("api") + [Optional(OneOf("_-"))] + AnyCase("key"));
    } else {
      var keyword := if k == 0 then "password" else if k == 1 then "passwd" else if k == 2 then "secret" else "token";
      AnyCaseNoBrackets(keyword);
      SeparatorFacts(AnyCase(keyword));
    }
  }

  predicate InValue(v: Text) { forall n :: 0 <= n < |v| ==> Has(VALUE.class_, v[n]) }

  /** A head, no match anywhere in it, whose value is cut short by the start of a match: m
      characters, fewer than six, and then the match. */
  ghost predicate CutAt(u: Text, k: nat, n: nat, m: nat) {
    && k < 5 && m < 6 && n + m <= |u|
    && Matches(HEADS[k], u[..n]) && InValue(u[n..n + m])
    && (forall x :: 0 <= x < n + m ==> !Hit(KEY_VALUE, u[x..])) && Hit(KEY_VALUE, u[n + m..])
  }

  ghost predicate CutHere(u: Text) { exists k: nat, n: nat, m: nat :: CutAt(u, k, n, m) }

  /** Somewhere in its scan the last pass meets such a place. */
  ghost predicate Cut(u: Text)
    decreases |u|
  {
    if u == [] then false
    else if Hit(KEY_VALUE, u) then Cut(u[FirstMatch(KEY_VALUE, u).value..])
    else CutHere(u) || Cut(u[1..])
  }

  /** Value characters at the start of a rewritten text stood in the original, up to the
      start of a match. */
  lemma {:induction false} WalkValue(r: Text, v: Text) returns (m: nat)
    requires v <= Replace(KEY_VALUE, r)
    ensures m <= |v| && m <= |r| && r[..m] == v[..m] && (forall x :: 0 <= x < m ==> !Hit(KEY_VALUE, r[x..]))
    ensures m == |v| || Hit(KEY_VALUE, r[m..])
    decreases |v|
  {
    hide Hit, FirstMatch;
    if v == [] || Hit(KEY_VALUE, r) {
      assert r[0..] == r;
      m := 0;
    } else {
      var u := Replace(KEY_VALUE, r[1..]);
      assert Replace(KEY_VALUE, r) == [r[0]] + u;
      assert v[1..] == u[..|v| - 1];
      m := WalkValue(r[1..], v[1..]);
      assert r[..m + 1] == [r[0]] + r[1..][..m] && v[..m + 1] == [v[0]] + v[1..][..m] && r[1..][m..] == r[m + 1..];
      forall x | 0 <= x < m + 1
        ensures !Hit(KEY_VALUE, r[x..])
      {
        assert if x == 0 then r[x..] == r else r[x..] == r[1..][x - 1..];
      }
      m := m + 1;
    }
  }

  /** A match at the very start of the rewritten text means a cut there. */
  lemma MatchAtStart(u: Text, k: nat, m0: nat, j: nat)
    requires m0 <= j <= |Replace(KEY_VALUE, u)| && k < 5
    requires Matches(HEADS[k], Replace(KEY_VALUE, u)[..m0]) && Repeats(VALUE, Replace(KEY_VALUE, u)[m0..j])
    requires !Hit(KEY_VALUE, u)
    ensures CutHere(u)
  {
    hide Hit, FirstMatch, Replace, Matches;
    var t := Replace(KEY_VALUE, u);
    var h, v := t[..m0], t[m0..j];
    HeadIsSolid(k, h);
    PrefixKept(KEY_VALUE, u, m0);
    var r := u[m0..];
    assert t[m0..][..|v|] == v;
    var m := WalkValue(r, v);
    forall n | 0 <= n < |v|
      ensures Has(VALUE.class_, v[n])
    {
      assert v[n] in v;
    }
    assert u[m0..m0 + m] == v[..m] && r[m..] == u[m0 + m..];
    assert u[..m0 + m] == h + v[..m];
    if m >= 6 {
      MatchOne(VALUE, v[..m]);
      MatchConcat(HEADS[k], [VALUE], h, v[..m]);
      KeyValueShape();
      assert MatchesAny(KEY_VALUE, u[..m0 + m]);
      KeyValuePlain();
      FoundMatch(KEY_VALUE, u, m0 + m);
    } else {
      forall x | 0 <= x < m0 + m
        ensures !Hit(KEY_VALUE, u[x..])
      {
        if x >= m0 {
          assert u[x..] == r[x - m0..];
        }
      }
      assert u[..m0] == h && InValue(v[..m]);
      assert CutAt(u, k, m0, m);
    }
  }

  lemma {:induction false} MatchGivesCut(u: Text, i: nat, j: nat)
    requires i <= j <= |Replace(KEY_VALUE, u)| && MatchesAny(KEY_VALUE, Replace(KEY_VALUE, u)[i..j])
    ensures Cut(u)
    decreases |u|
  {
    hide Hit, FirstMatch, Replace, Matches;
    var t := Replace(KEY_VALUE, u);
    var w := t[i..j];
    KeyValueShape();
    var k :| 0 <= k < 5 && Matches(KEY_VALUE[k], w);
    var m := MatchSplit(HEADS[k], [VALUE], w);
    MatchOne(VALUE, w[m..]);
    HeadIsSolid(k, w[..m]);
    SliceOfSlice(t, i, j, 0, m);
    SliceOfSlice(t, i, j, m, j - i);
    if !Hit(KEY_VALUE, u) && i == 0 {
      assert t[..m] == w[..m];
      MatchAtStart(u, k, m, j);
      NonEmptySource(u);
    } else {
      Unroll(KEY_VALUE, u, i, i + m);
      var n, head := StepLength(KEY_VALUE, u), StepOutput(KEY_VALUE, u);
      SliceOfTail(head, Replace(KEY_VALUE, u[n..]), i, j);
      MatchGivesCut(u[n..], i - |head|, j - |head|);
    }
  }

  lemma NonEmptySource(u: Text)
    requires CutHere(u)
    ensures u != []
  {
    var k: nat, n: nat, m: nat :| CutAt(u, k, n, m);
    assert u[n + m..] != [];
  }

  lemma NotCleanTail(re: Redactor, x: Text, y: Text)
    requires !Clean(re, y)
    ensures !Clean(re, x + y)
  {
    var i, j :| 0 <= i <= j <= |y| && MatchesAny(re, y[i..j]);
    assert (x + y)[|x| + i..|x| + j] == y[i..j];
  }

  lemma CutHereGivesMatch(u: Text)
    requires CutHere(u)
    ensures !Clean(KEY_VALUE, Replace(KEY_VALUE, u))
  {
    hide Hit, FirstMatch, Matches;
    var k: nat, n: nat, m: nat :| CutAt(u, k, n, m);
    Unhit(KEY_VALUE, u, n + m);
    var t := Replace(KEY_VALUE, u);
    MarkerFirst(u[n + m..]);
    var v := u[n..n + m] + MARKER;
    assert InValue(MARKER);
    MatchOne(VALUE, v);
    MatchConcat(HEADS[k], [VALUE], u[..n], v);
    KeyValueShape();
    assert t[0..n + m + |MARKER|] == u[..n] + v;
    assert MatchesAny(KEY_VALUE, u[..n] + v);
  }

  lemma MarkerFirst(r: Text)
    requires Hit(KEY_VALUE, r)
    ensures MARKER <= Replace(KEY_VALUE, r)
  {
  }

  lemma {:induction false} CutGivesMatch(u: Text)
    requires Cut(u)
    ensures !Clean(KEY_VALUE, Replace(KEY_VALUE, u))
    decreases |u|
  {
    hide CutHere, Clean;
    if Hit(KEY_VALUE, u) {
      var n := FirstMatch(KEY_VALUE, u).value;
      CutGivesMatch(u[n..]);
      NotCleanTail(KEY_VALUE, MARKER, Replace(KEY_VALUE, u[n..]));
    } else if CutHere(u) {
      CutHereGivesMatch(u);
    } else {
      CutGivesMatch(u[1..]);
      NotCleanTail(KEY_VALUE, [u[0]], Replace(KEY_VALUE, u[1..]));
    }
  }

  lemma MaskIdempotentIff(s: Text)
    ensures Mask(Mask(s)) == Mask(s) <==> !Cut(Chain(FIRST, s))
  {
    hide Cut, Mask, Chain, Replace, MatchesAny;
    var u, r := Chain(FIRST, s), Mask(s);
    SecondMask(s);
    LastIsKeyValue(s);
    KeyValuePlain();
    PassEffect(KEY_VALUE, r);
    MarkedDiffers(r, Replace(KEY_VALUE, r));
    if Cut(u) {
      CutGivesMatch(u);
    } else {
      forall i, j | 0 <= i <= j <= |r|
        ensures !MatchesAny(KEY_VALUE, r[i..j])
      {
        if MatchesAny(KEY_VALUE, r[i..j]) {
          MatchGivesCut(u, i, j);
        }
      }
    }
  }

  /** Redacting twice is redacting once exactly when, in the text the first eight passes leave,
      no assignment's value is cut short by the start of a match of the last pattern. */
  lemma IdempotentIff(b: Bytes)
    ensures Redact(Redact(b)) == Redact(b) <==> !Cut(Chain(FIRST, Decode(b)))
  {
    hide Cut, Mask, Chain, Decode, Encode;
    MaskIdempotentIff(Decode(b));
    RedactDecodes(b);
    RedactDecodes(Redact(b));
  }
}
