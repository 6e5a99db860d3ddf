/** The nine patterns of internal/audit/redact.go and what the whole chain guarantees. */
module RedactChain {
  import opened Prelude
  import opened Utf8
  import opened Patterns
  import opened Redaction

  const GAP := AtLeast(OneOf(SPACES), 0)
  const BLOB10 := AtLeast(AlNum("_-"), 10)
  const DOT := Exactly(Lit('.'), 1)

  const AWS_KEY: Redactor := [Word("AKIA") + [Exactly(UpperDigit, 16)]]
  const AWS_SECRET: Redactor :=
    [AnyCase("aws_secret_access_key") + [GAP, Exactly(Lit('='), 1), GAP, AtLeast(NoneOf(SPACES), 1)]]
  const GITHUB: Redactor := [Word("gh") + [Exactly(OneOf("pousr"), 1), Exactly(Lit('_'), 1), AtLeast(AlNum(""), 36)]]
  const SLACK: Redactor := [Word("xox") + [Exactly(OneOf("abprs"), 1), Exactly(Lit('-'), 1), AtLeast(AlNum("-"), 10)]]
  const OPENAI: Redactor := [Word("sk-") + [AtLeast(AlNum(""), 20)]]
  const VAULT: Redactor := [Word("hvs.") + [AtLeast(AlNum("_-"), 20)]]
  const JWT: Redactor := [Word("eyJ") + [BLOB10, DOT, BLOB10, DOT, BLOB10]]
  const PEM: Redactor :=
    [Word("-----BEGIN ") + [AtLeast(UpperSpace, 1)] + Word("PRIVATE KEY-----")
     + [Item(NoneOf(""), 1, None, true)]
     + Word("-----END ") + [AtLeast(UpperSpace, 1)] + Word("PRIVATE KEY-----")]
  const ASSIGNED: Pattern :=
    [GAP, Exactly(OneOf(":="), 1), GAP, Optional(OneOf("\"'")), AtLeast(NoneOf(SPACES + "\"'"), 6)]
  const KEY_VALUE: Redactor :=
    [AnyCase("password") + ASSIGNED, AnyCase("passwd") + ASSIGNED, AnyCase("secret") + ASSIGNED,
     AnyCase("token") + ASSIGNED,
     AnyCase("api") + [Optional(OneOf("_-"))] + AnyCase("key") + ASSIGNED]

  const REDACTORS: seq<Redactor> :=
    [AWS_KEY, AWS_SECRET, GITHUB, SLACK, OPENAI, VAULT, JWT, PEM, KEY_VALUE]

  /** The prefix-anchored six, whose alphabets exclude brackets. */
  const PREFIXED: seq<Redactor> := [AWS_KEY, GITHUB, SLACK, OPENAI, VAULT, JWT]

  /** All nine passes, on text. */
  function Mask(t: Text): Text { Chain(REDACTORS, t) }

  /** One pass on the octets of a string, which it reads as text and writes back. */
  function Pass(re: Redactor, b: Bytes): Bytes { Encode(Replace(re, Decode(b))) }

  /** The octets Redact returns. */
  function Redact(b: Bytes): Bytes { Encode(Mask(Decode(b))) }

  /** The next pass reads exactly the text the last one wrote. */
  lemma PassDecodes(re: Redactor, b: Bytes)
    ensures Decode(Pass(re, b)) == Replace(re, Decode(b))
  {
    hide Replace, Canonical, Decode, Encode;
    DecodedIsCanonical(b);
    PassIsCanonical(re, Decode(b));
    DecodeEncode(Replace(re, Decode(b)));
  }

  lemma RedactDecodes(b: Bytes)
    ensures Decode(Redact(b)) == Mask(Decode(b))
  {
    hide Chain, Canonical, Decode, Encode;
    DecodedIsCanonical(b);
    ChainIsCanonical(REDACTORS, Decode(b));
    DecodeEncode(Mask(Decode(b)));
  }

  method RedactText(text: Bytes) returns (s: Bytes)
    ensures s == Redact(text)
  {
    hide Replace, Decode, Encode;
    s := text;
    for i := 0 to |REDACTORS|
      invariant Chain(REDACTORS[i..], Decode(s)) == Mask(Decode(text))
    {
      assert REDACTORS[i..][1..] == REDACTORS[i + 1..];
      PassDecodes(REDACTORS[i], s);
      s := Pass(REDACTORS[i], s);
    }
    assert REDACTORS[|REDACTORS|..] == [];
    EncodeDecode(s);
  }

  /* ---- Shape of the patterns ---- */

  lemma {:induction false} MinLengthConcat(p: Pattern, q: Pattern)
    ensures MinLength(p + q) == MinLength(p) + MinLength(q)
  {
    if p == [] {
      assert p + q == q;
    } else {
      assert (p + q)[1..] == p[1..] + q;
      MinLengthConcat(p[1..], q);
    }
  }

  lemma {:induction false} WordLength(w: string)
    ensures MinLength(Word(w)) == |w|
  {
    if w != [] {
      assert Word(w)[1..] == Word(w[1..]);
      WordLength(w[1..]);
    }
  }

  lemma AnchoredWord(w: string, tail: Pattern)
    requires '[' !in w && ']' !in w && NoBrackets(tail)
    requires |w| + MinLength(tail) > |MARKER| - 2
    ensures Anchored([Word(w) + tail])
  {
    MinLengthConcat(Word(w), tail);
    WordLength(w);
    forall i | 0 <= i < |Word(w) + tail|
      ensures !Has((Word(w) + tail)[i].class_, OPEN) && !Has((Word(w) + tail)[i].class_, CLOSE)
    {
      if i < |w| {
        assert w[i] in w;
      } else {
        assert (Word(w) + tail)[i] == tail[i - |w|];
      }
    }
  }

  lemma ShortTailsAnchored()
    ensures Anchored(AWS_KEY) && Anchored(OPENAI) && Anchored(VAULT)
  {
    AnchoredWord("AKIA", [Exactly(UpperDigit, 16)]);
    AnchoredWord("sk-", [AtLeast(AlNum(""), 20)]);
    AnchoredWord("hvs.", [AtLeast(AlNum("_-"), 20)]);
  }

  lemma ThreeItems(a: Item, b: Item, c: Item)
    ensures MinLength([a, b, c]) == a.min + b.min + c.min
  {
    assert [a, b, c][1..] == [b, c] && [b, c][1..] == [c] && [c][1..] == [];
    assert MinLength([]) == 0;
    assert MinLength([c]) == c.min;
    assert MinLength([b, c]) == b.min + MinLength([c]);
  }

  lemma GithubAnchored()
    ensures Anchored(GITHUB)
  {
    var a, b, c := Exactly(OneOf("pousr"), 1), Exactly(Lit('_'), 1), AtLeast(AlNum(""), 36);
    ThreeItems(a, b, c);
    AnchoredWord("gh", [a, b, c]);
  }

  lemma SlackAnchored()
    ensures Anchored(SLACK)
  {
    var a, b, c := Exactly(OneOf("abprs"), 1), Exactly(Lit('-'), 1), AtLeast(AlNum("-"), 10);
    ThreeItems(a, b, c);
    AnchoredWord("xox", [a, b, c]);
  }

  lemma JwtAnchored()
    ensures Anchored(JWT)
  {
    ThreeItems(BLOB10, DOT, BLOB10);
    MinLengthConcat([BLOB10, DOT], [BLOB10, DOT, BLOB10]);
    assert [BLOB10, DOT] + [BLOB10, DOT, BLOB10] == [BLOB10, DOT, BLOB10, DOT, BLOB10];
    AnchoredWord("eyJ", [BLOB10, DOT, BLOB10, DOT, BLOB10]);
  }

  lemma PrefixedAreAnchored()
    ensures forall re :: re in PREFIXED ==> Anchored(re)
  {
    ShortTailsAnchored();
    GithubAnchored();
    SlackAnchored();
    JwtAnchored();
  }

  /* ---- Main results ---- */

  /** Whatever the input, no substring of the output is an AWS key, a GitHub, Slack, OpenAI
      or Vault token, or a JWT. */
  lemma NothingPrefixedIsLeft(s: Bytes)
    ensures forall re :: re in PREFIXED ==> Clean(re, Decode(Redact(s)))
  {
    hide Clean, Chain, Decode;
    RedactDecodes(s);
    NothingPrefixedInMask(Decode(s));
  }

  lemma NothingPrefixedInMask(t: Text)
    ensures forall re :: re in PREFIXED ==> Clean(re, Mask(t))
  {
    PrefixedAreAnchored();
    ChainCleans(REDACTORS, 0, t);
    ChainCleans(REDACTORS, 2, t);
    ChainCleans(REDACTORS, 3, t);
    ChainCleans(REDACTORS, 4, t);
    ChainCleans(REDACTORS, 5, t);
    ChainCleans(REDACTORS, 6, t);
  }

  /** A redactor whose every match starts with a character that is neither a space nor the
      marker's. */
  predicate StartsPlain(re: Redactor) {
    forall k :: 0 <= k < |re| ==> re[k] != [] && re[k][0].min > 0 && Plain(re[k][0].class_)
  }

  predicate Blank(x: Sym) { x.Rune? && x.c in SPACES }

  predicate Plain(k: Class) {
    !Has(k, OPEN) && forall n :: 0 <= n < |SPACES| ==> !Has(k, Rune(SPACES[n]))
  }

  lemma AllStartPlain()
    ensures forall re :: re in REDACTORS ==> StartsPlain(re)
  {
  }

  /** The first place where t differs from s, t has a marker. */
  ghost predicate Marked(s: Text, t: Text) {
    exists i :: MarkedAt(s, t, i)
  }

  predicate MarkedAt(s: Text, t: Text, i: int) {
    0 <= i < |s| && i < |t| && s[..i] == t[..i] && t[i] == OPEN && s[i] != OPEN
  }

  lemma MarkedTransitive(r: Text, s: Text, t: Text)
    requires Marked(r, s) && Marked(s, t)
    ensures Marked(r, t)
  {
    var i :| MarkedAt(r, s, i);
    var j :| MarkedAt(s, t, j);
    var m := if i < j then i else j;
    assert r[..m] == s[..m] == t[..m] by {
      assert r[..m] == r[..i][..m] && s[..m] == s[..i][..m] && s[..m] == s[..j][..m] && t[..m] == t[..j][..m];
    }
    if j < i {
      assert s[..i][j] == r[..i][j];
    } else if i < j {
      assert s[..j][i] == t[..j][i];
    }
    assert MarkedAt(r, t, m);
  }

  lemma WordHead(p: Pattern, w: Text)
    requires p != [] && p[0].min > 0 && Matches(p, w)
    ensures w != [] && Has(p[0].class_, w[0])
  {
    var n: nat :| Splits(p, w, n);
    assert w[..n][0] in w[..n];
  }

  lemma PlainHit(re: Redactor, s: Text)
    requires StartsPlain(re) && FirstMatch(re, s).Some?
    ensures Hit(re, s) && s != [] && s[0] != OPEN && !Blank(s[0])
  {
    FirstMatchSound(re, s);
    var w := s[..FirstMatch(re, s).value];
    var k :| 0 <= k < |re| && Matches(re[k], w);
    WordHead(re[k], w);
  }

  lemma MarkedTail(c: Sym, s: Text, t: Text)
    requires Marked(s, t)
    ensures Marked([c] + s, [c] + t)
  {
    var n :| MarkedAt(s, t, n);
    assert ([c] + s)[..n + 1] == [c] + s[..n] && ([c] + t)[..n + 1] == [c] + t[..n];
    assert MarkedAt([c] + s, [c] + t, n + 1);
  }

  /** A match that does not start here lies in the tail. */
  lemma MatchInTail(re: Redactor, s: Text)
    requires !Clean(re, s) && FirstMatch(re, s) == None
    ensures s != [] && !Clean(re, s[1..])
  {
    var i, j :| 0 <= i <= j <= |s| && MatchesAny(re, s[i..j]);
    if i == 0 {
      assert s[..j] == s[0..j];
      FirstMatchComplete(re, s, j);
    }
    assert s[1..][i - 1..j - 1] == s[i..j];
  }

  /** A pass leaves a clean text alone, and visibly marks any other. */
  lemma {:induction false} PassEffect(re: Redactor, s: Text)
    requires StartsPlain(re)
    ensures if Clean(re, s) then Replace(re, s) == s else Marked(s, Replace(re, s))
  {
    if Clean(re, s) {
      CleanIsFixed(re, s);
    } else if FirstMatch(re, s).Some? {
      PlainHit(re, s);
      assert MarkedAt(s, Replace(re, s), 0);
    } else {
      MatchInTail(re, s);
      PassEffect(re, s[1..]);
      MarkedTail(s[0], s[1..], Replace(re, s[1..]));
      assert s == [s[0]] + s[1..];
    }
  }

  lemma {:induction false} ChainEffect(res: seq<Redactor>, s: Text)
    requires forall re :: re in res ==> StartsPlain(re)
    ensures if forall re :: re in res ==> Clean(re, s) then Chain(res, s) == s else Marked(s, Chain(res, s))
  {
    if res != [] {
      assert res[0] in res;
      var t := Replace(res[0], s);
      PassEffect(res[0], s);
      ChainEffect(res[1..], t);
      assert forall re :: re in res <==> re == res[0] || re in res[1..];
      if !Clean(res[0], s) && Marked(t, Chain(res[1..], t)) {
        MarkedTransitive(s, t, Chain(res[1..], t));
      }
    }
  }

  /** A string is left unchanged exactly when none of the nine patterns occurs in its text. */
  lemma UnchangedIffClean(s: Bytes)
    ensures Redact(s) == s <==> forall re :: re in REDACTORS ==> Clean(re, Decode(s))
  {
    hide Chain, Clean, Decode, Encode;
    AllStartPlain();
    ChainEffect(REDACTORS, Decode(s));
    MarkedDiffers(Decode(s), Mask(Decode(s)));
    RedactDecodes(s);
    EncodeDecode(s);
  }

  lemma MarkedDiffers(s: Text, t: Text)
    ensures Marked(s, t) ==> t != s
  {
  }
}
