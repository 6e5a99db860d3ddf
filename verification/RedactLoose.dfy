/** What a second redaction does: of the three loose patterns the AWS secret and the PEM block
    are gone for good after their own passes, and only the last, whose value may take in
    the marker, can act again. */
module RedactLoose {
  import opened Prelude
  import opened Utf8
  import opened Patterns
  import opened Redaction
  import opened RedactChain

  lemma FoundMatch(p: Redactor, s: Text, e: nat)
    requires StartsPlain(p) && e <= |s| && MatchesAny(p, s[..e])
    ensures Hit(p, s)
  {
    FirstMatchComplete(p, s, e);
    PlainHit(p, s);
  }

  /** The first character of a rewritten text, unless it is the marker's, was there before;
      either way the original began with no space if the rewriting does not. */
  lemma FirstKept(re: Redactor, r: Text)
    requires StartsPlain(re) && Replace(re, r) != [] && !Blank(Replace(re, r)[0])
    ensures r != [] && !Blank(r[0])
  {
    if Hit(re, r) {
      PlainHit(re, r);
    }
  }

  lemma KeyValuePlain()
    ensures StartsPlain(KEY_VALUE)
  {
    AllStartPlain();
    assert KEY_VALUE == REDACTORS[8];
  }

  lemma CleanSlice(re: Redactor, s: Text, a: nat, n: nat)
    requires Clean(re, s) && a <= |s| && n <= |s[a..]|
    ensures !MatchesAny(re, s[a..][..n])
  {
    assert s[a..][..n] == s[a..a + n];
  }

  /* ---- The AWS secret ---- */

  const AWS_HEAD: Pattern := AnyCase("aws_secret_access_key") + [GAP, Exactly(Lit('='), 1), GAP]
  const INK: Item := AtLeast(NoneOf(SPACES), 1)

  lemma AwsShape()
    ensures AWS_SECRET == [AWS_HEAD + [INK]]
    ensures NoBrackets(AWS_HEAD) && MinLength(AWS_HEAD) > |MARKER| - 2
  {
    hide AnyCase, MinLength;
    var word := "aws_secret_access_key";
    MinLengthConcat(AnyCase(word), [GAP, Exactly(Lit('='), 1), GAP]);
    AnyCaseLength(word);
    AnyCaseNoBrackets(word);
    assert AWS_SECRET[0] == AWS_HEAD + [INK];
  }

  lemma AnyCaseNoBrackets(w: string)
    requires '[' !in w && ']' !in w
    ensures NoBrackets(AnyCase(w))
  {
    assert forall i :: 0 <= i < |w| ==> w[i] in w;
  }

  lemma {:induction false} AnyCaseLength(w: string)
    ensures MinLength(AnyCase(w)) == |w|
  {
    if w != [] {
      assert AnyCase(w)[1..] == AnyCase(w[1..]);
      AnyCaseLength(w[1..]);
    }
  }

  /** A match in a rewritten text stems from a match in the original, at a place where the pass
      found none of its own. */
  lemma AwsOrigin(re: Redactor, s: Text, i: nat, j: nat) returns (a: nat, n: nat)
    requires StartsPlain(re) && i <= j <= |Replace(re, s)| && MatchesAny(AWS_SECRET, Replace(re, s)[i..j])
    ensures a <= |s| && n <= |s[a..]| && !Hit(re, s[a..]) && MatchesAny(AWS_SECRET, s[a..][..n])
  {
    hide Replace, Hit, FirstMatch, StartsPlain, Matches;
    var t := Replace(re, s);
    var w := t[i..j];
    AwsShape();
    var m := MatchSplit(AWS_HEAD, [INK], w);
    WordsOf(AWS_HEAD, w[..m]);
    MatchOne(INK, w[m..]);
    assert w[m..][0] in w[m..];
    SliceOfSlice(t, i, j, 0, m);
    a := SurvivorOrigin(re, s, i, i + m);
    var r := s[a + m..];
    SliceAt(t, i, j, m);
    FirstKept(re, r);
    MatchOne(INK, [r[0]]);
    MatchConcat(AWS_HEAD, [INK], w[..m], [r[0]]);
    n := m + 1;
    assert s[a..][..n] == w[..m] + [r[0]];
    assert MatchesAny(AWS_SECRET, s[a..][..n]) by { OneAlternative(AWS_HEAD + [INK], s[a..][..n]); }
  }

  lemma OneAlternative(p: Pattern, w: Text)
    ensures MatchesAny([p], w) <==> Matches(p, w)
  {
    assert [p][0] == p;
  }

  lemma AwsOwnPass(s: Text)
    ensures Clean(AWS_SECRET, Replace(AWS_SECRET, s))
  {
    hide Replace, MatchesAny;
    AllStartPlain();
    assert AWS_SECRET == REDACTORS[1];
    var t := Replace(AWS_SECRET, s);
    forall i, j | 0 <= i <= j <= |t|
      ensures !MatchesAny(AWS_SECRET, t[i..j])
    {
      if MatchesAny(AWS_SECRET, t[i..j]) {
        var a, n := AwsOrigin(AWS_SECRET, s, i, j);
        FoundMatch(AWS_SECRET, s[a..], n);
      }
    }
  }

  lemma AwsPassKeeps(re: Redactor, s: Text)
    requires StartsPlain(re) && Clean(AWS_SECRET, s)
    ensures Clean(AWS_SECRET, Replace(re, s))
  {
    hide Replace, MatchesAny, StartsPlain;
    var t := Replace(re, s);
    forall i, j | 0 <= i <= j <= |t|
      ensures !MatchesAny(AWS_SECRET, t[i..j])
    {
      if MatchesAny(AWS_SECRET, t[i..j]) {
        var a, n := AwsOrigin(re, s, i, j);
        CleanSlice(AWS_SECRET, s, a, n);
      }
    }
  }

  lemma {:induction false} AwsChainKeeps(res: seq<Redactor>, s: Text)
    requires Clean(AWS_SECRET, s) && forall re :: re in res ==> StartsPlain(re)
    ensures Clean(AWS_SECRET, Chain(res, s))
  {
    hide Clean, StartsPlain;
    if res != [] {
      AwsPassKeeps(res[0], s);
      AwsChainKeeps(res[1..], Replace(res[0], s));
    }
  }

  /* ---- The PEM block ---- */

  const PEM_BEGIN: Pattern := Word("-----BEGIN ") + [AtLeast(UpperSpace, 1)] + Word("PRIVATE KEY-----")
  const PEM_END: Pattern := Word("-----END ") + [AtLeast(UpperSpace, 1)] + Word("PRIVATE KEY-----")
  const BODY: Item := Item(NoneOf(""), 1, None, true)

  lemma PemShape()
    ensures PEM == [PEM_BEGIN + ([BODY] + PEM_END)]
    ensures NoBrackets(PEM_BEGIN) && NoBrackets(PEM_END)
    ensures MinLength(PEM_BEGIN) > |MARKER| - 2 && MinLength(PEM_END) > |MARKER| - 2
  {
    hide Word, NoBrackets, MinLength;
    assert PEM[0] == PEM_BEGIN + ([BODY] + PEM_END);
    PemEnds("-----BEGIN ");
    PemEnds("-----END ");
  }

  lemma PemEnds(w: string)
    requires '[' !in w && ']' !in w
    ensures var p := Word(w) + [AtLeast(UpperSpace, 1)] + Word("PRIVATE KEY-----");
            NoBrackets(p) && MinLength(p) > |MARKER| - 2
  {
    hide MinLength;
    var tail := "PRIVATE KEY-----";
    var p := Word(w) + [AtLeast(UpperSpace, 1)] + Word(tail);
    MinLengthConcat(Word(w) + [AtLeast(UpperSpace, 1)], Word(tail));
    WordLength(tail);
    forall i | 0 <= i < |p|
      ensures !Has(p[i].class_, OPEN) && !Has(p[i].class_, CLOSE)
    {
      if i < |w| {
        assert w[i] in w;
      } else if i > |w| {
        assert p[i] == Word(tail)[i - |w| - 1];
      }
    }
  }

  lemma LaterPiece(t: Text, i: nat, j: nat, m: nat, x: nat)
    requires i <= j <= |t| && m + x <= j - i
    ensures var e := t[i..j][m..][x..]; x + |e| <= |t[i + m..]| && t[i + m..][x..x + |e|] == e
  {
    SliceOfSlice(t, i, j, m, j - i);
    SliceOfSlice(t, i + m, j, x, j - i - m);
    assert t[i + m..|t|] == t[i + m..];
    SliceOfSlice(t, i + m, |t|, x, j - i - m);
  }

  /** Three adjacent pieces of s. */
  lemma Glue(s: Text, a: nat, m: nat, b: nat, l: nat)
    requires a + m + b + l <= |s|
    ensures var r := s[a + m..]; s[a..][..m + b + l] == s[a..][..m] + (r[..b] + r[b..][..l])
  {
  }

  lemma PemOrigin(re: Redactor, s: Text, i: nat, j: nat) returns (a: nat, n: nat)
    requires i <= j <= |Replace(re, s)| && MatchesAny(PEM, Replace(re, s)[i..j])
    ensures a <= |s| && n <= |s[a..]| && !Hit(re, s[a..]) && MatchesAny(PEM, s[a..][..n])
  {
    hide Replace, Hit, FirstMatch, Matches;
    var t := Replace(re, s);
    var w := t[i..j];
    PemShape();
    var m := MatchSplit(PEM_BEGIN, [BODY] + PEM_END, w);
    var x := MatchSplit([BODY], PEM_END, w[m..]);
    var e := w[m..][x..];
    WordsOf(PEM_BEGIN, w[..m]);
    WordsOf(PEM_END, e);
    MatchOne(BODY, w[m..][..x]);
    SliceOfSlice(t, i, j, 0, m);
    SliceOfSlice(t, i, j, m, j - i);
    a := SurvivorOrigin(re, s, i, i + m);
    var r := s[a + m..];
    LaterPiece(t, i, j, m, x);
    var b := SurvivorOrigin(re, r, x, x + |e|);
    MatchOne(BODY, r[..b]);
    MatchConcat([BODY], PEM_END, r[..b], e);
    MatchConcat(PEM_BEGIN, [BODY] + PEM_END, w[..m], r[..b] + e);
    n := m + b + |e|;
    Glue(s, a, m, b, |e|);
    OneAlternative(PEM_BEGIN + ([BODY] + PEM_END), s[a..][..n]);
  }

  lemma PemOwnPass(s: Text)
    ensures Clean(PEM, Replace(PEM, s))
  {
    hide Replace, MatchesAny;
    AllStartPlain();
    assert PEM == REDACTORS[7];
    var t := Replace(PEM, s);
    forall i, j | 0 <= i <= j <= |t|
      ensures !MatchesAny(PEM, t[i..j])
    {
      if MatchesAny(PEM, t[i..j]) {
        var a, n := PemOrigin(PEM, s, i, j);
        FoundMatch(PEM, s[a..], n);
      }
    }
  }

  lemma PemPassKeeps(re: Redactor, s: Text)
    requires Clean(PEM, s)
    ensures Clean(PEM, Replace(re, s))
  {
    hide Replace, MatchesAny;
    var t := Replace(re, s);
    forall i, j | 0 <= i <= j <= |t|
      ensures !MatchesAny(PEM, t[i..j])
    {
      if MatchesAny(PEM, t[i..j]) {
        var a, n := PemOrigin(re, s, i, j);
        CleanSlice(PEM, s, a, n);
      }
    }
  }

  /* ---- The second run ---- */

  /** The first eight passes. */
  const FIRST: seq<Redactor> := REDACTORS[..8]

  lemma {:induction false} ChainConcat(a: seq<Redactor>, b: seq<Redactor>, s: Text)
    ensures Chain(a + b, s) == Chain(b, Chain(a, s))
  {
    if a == [] {
      assert a + b == b;
    } else {
      assert (a + b)[1..] == a[1..] + b;
      ChainConcat(a[1..], b, Replace(a[0], s));
    }
  }

  lemma LastIsKeyValue(s: Text)
    ensures Mask(s) == Replace(KEY_VALUE, Chain(FIRST, s))
  {
    assert REDACTORS == FIRST + [KEY_VALUE];
    ChainConcat(FIRST, [KEY_VALUE], s);
    assert [KEY_VALUE][1..] == [];
  }

  lemma AwsMasked(s: Text)
    ensures Clean(AWS_SECRET, Mask(s))
  {
    AllStartPlain();
    assert REDACTORS == REDACTORS[..2] + REDACTORS[2..];
    ChainConcat(REDACTORS[..2], REDACTORS[2..], s);
    var u := Replace(AWS_KEY, s);
    assert REDACTORS[..2][1..] == [AWS_SECRET] && [AWS_SECRET][1..] == [];
    AwsOwnPass(u);
    AwsChainKeeps(REDACTORS[2..], Replace(AWS_SECRET, u));
  }

  lemma PemMasked(s: Text)
    ensures Clean(PEM, Mask(s))
  {
    LastIsKeyValue(s);
    assert FIRST == REDACTORS[..7] + [PEM];
    ChainConcat(REDACTORS[..7], [PEM], s);
    var u := Chain(REDACTORS[..7], s);
    assert [PEM][1..] == [];
    PemOwnPass(u);
    PemPassKeeps(KEY_VALUE, Replace(PEM, u));
  }

  lemma SecondMask(s: Text)
    ensures forall re :: re in FIRST ==> Clean(re, Mask(s))
    ensures Mask(Mask(s)) == Replace(KEY_VALUE, Mask(s))
  {
    var r := Mask(s);
    NothingPrefixedInMask(s);
    AwsMasked(s);
    PemMasked(s);
    assert forall re :: re in FIRST ==> re in PREFIXED || re == AWS_SECRET || re == PEM;
    assert forall k :: 0 <= k < 8 ==> FIRST[k] in FIRST;
    SkipCleanPasses(FIRST, 8, r);
    assert FIRST[8..] == [];
    LastIsKeyValue(r);
  }

  /* ---- On strings ---- */

  lemma AwsGone(b: Bytes)
    ensures Clean(AWS_SECRET, Decode(Redact(b)))
  {
    hide Clean, Chain, Decode;
    RedactDecodes(b);
    AwsMasked(Decode(b));
  }

  lemma PemGone(b: Bytes)
    ensures Clean(PEM, Decode(Redact(b)))
  {
    hide Clean, Chain, Decode;
    RedactDecodes(b);
    PemMasked(Decode(b));
  }

  /** The first eight patterns no longer occur in the output, so a second run is a run of the
      last pass alone. */
  lemma SecondRun(b: Bytes)
    ensures forall re :: re in FIRST ==> Clean(re, Decode(Redact(b)))
    ensures Redact(Redact(b)) == Pass(KEY_VALUE, Redact(b))
  {
    hide Clean, Chain, Decode, Encode, Replace;
    RedactDecodes(b);
    SecondMask(Decode(b));
  }
}
