/** A string on which redacting twice differs from redacting once: the value class of the last
    pattern accepts the marker itself. */
module RedactTwice {
  import opened Prelude
  import opened Utf8
  import opened Patterns
  import opened Redaction
  import opened RedactChain
  import opened RedactLoose
  import opened RedactIdem

  const STRING: Bytes := "token=token =abcdef"
  const TEXT: Text := Runes(STRING)
  const TOKEN: Pattern := AnyCase("token") + ASSIGNED

  /* ---- Building a match ---- */

  lemma {:induction false} MatchAnyCase(w: string)
    ensures Matches(AnyCase(w), Runes(w))
  {
    if w != [] {
      MatchAnyCase(w[1..]);
      MatchOne(Exactly(Fold(w[0]), 1), [Rune(w[0])]);
      MatchConcat([Exactly(Fold(w[0]), 1)], AnyCase(w[1..]), [Rune(w[0])], Runes(w[1..]));
      assert [Exactly(Fold(w[0]), 1)] + AnyCase(w[1..]) == AnyCase(w) && [Rune(w[0])] + Runes(w[1..]) == Runes(w);
    }
  }

  lemma TokenWord(gap: Text, value: Text)
    requires Repeats(GAP, gap) && Repeats(VALUE, value)
    ensures MatchesAny(KEY_VALUE, Runes("token") + gap + [Rune('=')] + value)
  {
    hide Matches, Repeats, AnyCase;
    BareSeparator();
    var eq, opt := Exactly(OneOf(":="), 1), Optional(OneOf("\"'"));
    var none: Text, equals, word := [], [Rune('=')], Runes("token");
    MatchOne(VALUE, value);
    MatchOne(opt, none);
    MatchConcat([opt], [VALUE], none, value);
    MatchOne(GAP, none);
    MatchConcat([GAP], [opt] + [VALUE], none, none + value);
    MatchOne(eq, equals);
    MatchConcat([eq], [GAP] + ([opt] + [VALUE]), equals, none + (none + value));
    MatchOne(GAP, gap);
    MatchConcat([GAP], [eq] + ([GAP] + ([opt] + [VALUE])), gap, equals + (none + (none + value)));
    MatchAnyCase("token");
    var tail := gap + (equals + (none + (none + value)));
    assert [GAP] + ([eq] + ([GAP] + ([opt] + [VALUE]))) == ASSIGNED;
    MatchConcat(AnyCase("token"), ASSIGNED, word, tail);
    assert word + tail == word + gap + equals + value;
    assert KEY_VALUE[3] == TOKEN;
  }

  /* ---- Refuting a match ---- */

  lemma MissingChar(p: Pattern, i: nat, s: Text)
    requires i < |p| && p[i].min > 0 && forall x :: x in s ==> !Has(p[i].class_, x)
    ensures Clean([p], s)
  {
    forall a, b | 0 <= a <= b <= |s| && MatchesAny([p], s[a..b])
      ensures false
    {
      NeedsChar(p, i, s[a..b]);
    }
  }

  lemma OneStep(k: Class, rest: Pattern, s: Text)
    requires s == [] || !Has(k, s[0]) || MatchAt(rest, s[1..]) == None
    ensures MatchAt([Exactly(k, 1)] + rest, s) == None
  {
    var p := [Exactly(k, 1)] + rest;
    assert p[1..] == rest;
    if s != [] {
      assert RunLength(p[0], s[1..], 1) == 0;
    }
  }

  lemma NoRun(it: Item, rest: Pattern, s: Text)
    requires it.min == 0 && !it.lazy && s != [] && !Has(it.class_, s[0]) && MatchAt(rest, s) == None
    ensures MatchAt([it] + rest, s) == None
  {
    var p := [it] + rest;
    assert p[1..] == rest && s[0..] == s;
  }

  lemma {:induction false} AnyCaseThenNone(w: string, rest: Pattern, s: Text)
    requires |w| <= |s| && MatchAt(rest, s[|w|..]) == None
    ensures MatchAt(AnyCase(w) + rest, s) == None
  {
    if w == [] {
      assert AnyCase(w) + rest == rest && s[0..] == s;
    } else {
      assert s[1..][|w| - 1..] == s[|w|..];
      AnyCaseThenNone(w[1..], rest, s[1..]);
      OneStep(Fold(w[0]), AnyCase(w[1..]) + rest, s);
      assert [Exactly(Fold(w[0]), 1)] + (AnyCase(w[1..]) + rest) == AnyCase(w) + rest;
    }
  }

  lemma AssignedNone(u: Text, s: Text)
    requires s != [] && s[0] == Rune('=') && s[1..] == u && u != [] && u[0] == Rune('t')
    requires MatchAt([VALUE], u) == None
    ensures MatchAt(ASSIGNED, s) == None
  {
    var eq, opt := Exactly(OneOf(":="), 1), Optional(OneOf("\"'"));
    var p1 := [opt] + [VALUE];
    NoRun(opt, [VALUE], u);
    var p2 := [GAP] + p1;
    NoRun(GAP, p1, u);
    var p3 := [eq] + p2;
    OneStep(OneOf(":="), p2, s);
    NoRun(GAP, p3, s);
    assert [GAP] + p3 == ASSIGNED;
  }

  lemma {:induction false} RunStops(it: Item, u: Text, k: nat, used: nat)
    requires k < |u| && !Has(it.class_, u[k])
    ensures RunLength(it, u, used) <= k
  {
    if k > 0 {
      RunStops(it, u[1..], k - 1, used + 1);
    }
  }

  lemma RestIsLong(u: Text)
    requires RunLength(VALUE, u, 0) < 6
    ensures MatchAt([VALUE], u) == None
  {
  }

  lemma ShortValue(s: Text)
    requires |s| > 11 && s[5] == Rune('=') && s[6] == Rune('t') && s[11] == Rune(' ')
    ensures MatchAt(TOKEN, s) == None
  {
    var v := s[5..];
    assert (SPACES + "\"'")[4] == ' ';
    RunStops(VALUE, v[1..], 5, 0);
    RestIsLong(v[1..]);
    AssignedNone(v[1..], v);
    AnyCaseThenNone("token", ASSIGNED, s);
  }

  /** The first value of TEXT is one character too short. */
  lemma NoMatchAtStart()
    ensures MatchAt(TOKEN, TEXT) == None
  {
    ShortValue(TEXT);
  }

  lemma KeywordHeads()
    ensures KEY_VALUE[0][0] == Exactly(Fold('p'), 1) && KEY_VALUE[1][0] == Exactly(Fold('p'), 1)
    ensures KEY_VALUE[2][0] == Exactly(Fold('s'), 1) && KEY_VALUE[3][0] == Exactly(Fold('t'), 1)
    ensures KEY_VALUE[4][0] == Exactly(Fold('a'), 1)
  {
  }

  lemma {:induction false} AllMiss(re: Redactor, s: Text)
    requires forall k :: 0 <= k < |re| ==> MatchAt(re[k], s) == None
    ensures FirstMatch(re, s) == None
  {
    if re != [] {
      AllMiss(re[1..], s);
    }
  }

  lemma HeadMiss(p: Pattern, s: Text)
    requires p != [] && p[0] == Exactly(p[0].class_, 1) && (s == [] || !Has(p[0].class_, s[0]))
    ensures MatchAt(p, s) == None
  {
    OneStep(p[0].class_, p[1..], s);
    assert [p[0]] + p[1..] == p;
  }

  lemma NoHitAtStart()
    ensures FirstMatch(KEY_VALUE, TEXT) == None
  {
    KeywordHeads();
    NoMatchAtStart();
    var s := TEXT;
    HeadMiss(KEY_VALUE[0], s);
    HeadMiss(KEY_VALUE[1], s);
    HeadMiss(KEY_VALUE[2], s);
    HeadMiss(KEY_VALUE[4], s);
    AllMiss(KEY_VALUE, s);
  }

  lemma NoHitNear(s: Text)
    requires s != [] && s[0].Rune? && s[0].c in "oken="
    ensures FirstMatch(KEY_VALUE, s) == None
  {
    KeywordHeads();
    forall k | 0 <= k < 5
      ensures MatchAt(KEY_VALUE[k], s) == None
    {
      HeadMiss(KEY_VALUE[k], s);
    }
    AllMiss(KEY_VALUE, s);
  }

  lemma FirstFourSkipText()
    ensures Clean(AWS_KEY, TEXT) && Clean(AWS_SECRET, TEXT) && Clean(GITHUB, TEXT) && Clean(SLACK, TEXT)
  {
    MissingChar(AWS_KEY[0], 0, TEXT);
    MissingChar(AWS_SECRET[0], 3, TEXT);
    MissingChar(GITHUB[0], 0, TEXT);
    MissingChar(SLACK[0], 0, TEXT);
  }

  lemma NextFourSkipText()
    ensures Clean(OPENAI, TEXT) && Clean(VAULT, TEXT) && Clean(JWT, TEXT) && Clean(PEM, TEXT)
  {
    MissingChar(OPENAI[0], 2, TEXT);
    MissingChar(VAULT[0], 0, TEXT);
    MissingChar(JWT[0], 2, TEXT);
    MissingChar(PEM[0], 0, TEXT);
  }

  /** The first eight passes do not touch TEXT. */
  lemma OthersSkipText()
    ensures forall n :: 0 <= n < 8 ==> Clean(REDACTORS[n], TEXT)
  {
    FirstFourSkipText();
    NextFourSkipText();
  }

  lemma SecondValue()
    ensures Repeats(GAP, Runes(" ")) && Repeats(VALUE, Runes("abcdef"))
  {
  }

  lemma HitAfterHead()
    ensures Hit(KEY_VALUE, TEXT[6..])
  {
    hide Hit, FirstMatch, MatchesAny, StartsPlain, KEY_VALUE, Repeats;
    var gap, value := Runes(" "), Runes("abcdef");
    SecondValue();
    TokenWord(gap, value);
    var u := TEXT[6..];
    assert Runes("token") + gap + [Rune('=')] + value == u && u[..|u|] == u;
    KeyValuePlain();
    FoundMatch(KEY_VALUE, u, |u|);
  }

  lemma NoHitIn(n: nat)
    requires n < 6
    ensures !Hit(KEY_VALUE, TEXT[n..])
  {
    if n == 0 {
      assert TEXT[0..] == TEXT;
      NoHitAtStart();
    } else {
      NoHitNear(TEXT[n..]);
    }
  }

  /** The value of the first "token=" is cut short at once, by the second match. */
  lemma TextIsCut()
    ensures Cut(TEXT)
  {
    hide Hit, Matches;
    HitAfterHead();
    forall x | 0 <= x < 6
      ensures !Hit(KEY_VALUE, TEXT[x..])
    {
      NoHitIn(x);
    }
    TokenHead();
    assert TEXT[6..6] == [];
    assert CutAt(TEXT, 3, 6, 0);
    assert TEXT[0..] == TEXT;
  }

  lemma BareSeparator()
    ensures Repeats(GAP, []) && Repeats(Optional(OneOf("\"'")), []) && Repeats(Exactly(OneOf(":="), 1), [Rune('=')])
  {
  }

  lemma TokenHead()
    ensures Matches(HEADS[3], TEXT[..6])
  {
    hide Matches, Repeats, AnyCase;
    BareSeparator();
    var none: Text, equals, word := [], [Rune('=')], Runes("token");
    var eq, opt := Exactly(OneOf(":="), 1), Optional(OneOf("\"'"));
    MatchOne(opt, none);
    MatchOne(GAP, none);
    MatchOne(eq, equals);
    MatchConcat([GAP], [opt], none, none);
    MatchConcat([eq], [GAP] + [opt], equals, none + none);
    MatchConcat([GAP], [eq] + ([GAP] + [opt]), none, equals + (none + none));
    MatchAnyCase("token");
    var tail := none + (equals + (none + none));
    assert [GAP] + ([eq] + ([GAP] + [opt])) == SEPARATOR;
    MatchConcat(AnyCase("token"), SEPARATOR, word, tail);
    assert word + tail == TEXT[..6];
  }

  /** The source calls Redact idempotent; on this string a second run changes the result. */
  lemma NotIdempotent()
    ensures Redact(Redact(STRING)) != Redact(STRING)
  {
    hide Redact, Chain, Cut, Decode;
    DecodeAscii(STRING);
    OthersSkipText();
    SkipCleanPasses(FIRST, 8, TEXT);
    assert FIRST[8..] == [];
    NoPasses(TEXT);
    TextIsCut();
    IdempotentIff(STRING);
  }

  lemma NoPasses(s: Text)
    ensures Chain([], s) == s
  {
  }
}
