/** The secrets the patterns are for, spelled out, and that no redacted string holds one. */
module Secrets {
  import opened Prelude
  import opened Utf8
  import opened Patterns
  import opened Redaction
  import opened RedactChain
  import RedactLoose

  predicate Upper(x: Sym) { x.Rune? && 'A' <= x.c <= 'Z' }
  predicate Digit(x: Sym) { x.Rune? && '0' <= x.c <= '9' }
  predicate AlphaNum(x: Sym) { Upper(x) || Digit(x) || (x.Rune? && 'a' <= x.c <= 'z') }
  predicate Url(x: Sym) { AlphaNum(x) || x == Rune('_') || x == Rune('-') }

  /** The text has w at position i. */
  predicate At(t: Text, i: nat, w: string) { i + |w| <= |t| && t[i..i + |w|] == Runes(w) }

  predicate AwsKey(t: Text, i: nat) {
    At(t, i, "AKIA") && i + 20 <= |t| && forall k :: i + 4 <= k < i + 20 ==> Upper(t[k]) || Digit(t[k])
  }

  predicate OpenAiKey(t: Text, i: nat) {
    At(t, i, "sk-") && i + 23 <= |t| && forall k :: i + 3 <= k < i + 23 ==> AlphaNum(t[k])
  }

  predicate VaultToken(t: Text, i: nat) {
    At(t, i, "hvs.") && i + 24 <= |t| && forall k :: i + 4 <= k < i + 24 ==> Url(t[k])
  }

  predicate GithubToken(t: Text, i: nat) {
    && At(t, i, "gh") && i + 40 <= |t| && t[i + 2] in Runes("pousr") && t[i + 3] == Rune('_')
    && forall k :: i + 4 <= k < i + 40 ==> AlphaNum(t[k])
  }

  predicate SlackToken(t: Text, i: nat) {
    && At(t, i, "xox") && i + 15 <= |t| && t[i + 3] in Runes("abprs") && t[i + 4] == Rune('-')
    && forall k :: i + 5 <= k < i + 15 ==> AlphaNum(t[k]) || t[k] == Rune('-')
  }

  /** Three parts of at least ten characters, with dots at d and e between them. */
  predicate Jwt(t: Text, i: nat, d: nat, e: nat) {
    && At(t, i, "eyJ") && i + 13 <= d && d + 11 <= e && e + 11 <= |t| && t[d] == t[e] == Rune('.')
    && (forall k :: i + 3 <= k < d ==> Url(t[k])) && (forall k :: d + 1 <= k < e ==> Url(t[k]))
    && (forall k :: e + 1 <= k < e + 11 ==> Url(t[k]))
  }

  /** x is this small letter, or the same letter written otherwise. */
  predicate Letter(x: Sym, c: char) {
    && x.Rune?
    && (x.c == c || (c == 'a' && x.c == 'A') || (c == 'c' && x.c == 'C') || (c == 'd' && x.c == 'D')
        || (c == 'e' && x.c == 'E') || (c == 'i' && x.c == 'I') || (c == 'k' && x.c in "K\U{212A}")
        || (c == 'n' && x.c == 'N') || (c == 'o' && x.c == 'O') || (c == 'p' && x.c == 'P') || (c == 'r' && x.c == 'R')
        || (c == 's' && x.c in "S\U{17F}") || (c == 't' && x.c == 'T') || (c == 'w' && x.c == 'W')
        || (c == 'y' && x.c == 'Y'))
  }

  /** The text has w at position i, in whatever case. */
  predicate AtAnyCase(t: Text, i: nat, w: string) {
    i + |w| <= |t| && forall k :: 0 <= k < |w| ==> Letter(t[i + k], w[k])
  }

  predicate White(x: Sym) { x.Rune? && x.c in "\t\n\U{0C}\r " }

  predicate Whites(t: Text, a: nat, b: nat) { a <= b <= |t| && forall k :: a <= k < b ==> White(t[k]) }

  /** aws_secret_access_key, an equals sign at e and a value that begins at v. */
  predicate AwsSecret(t: Text, i: nat, e: nat, v: nat) {
    && AtAnyCase(t, i, "aws_secret_access_key") && Whites(t, i + 21, e) && e < v < |t| && t[e] == Rune('=')
    && Whites(t, e + 1, v) && !White(t[v])
  }

  /** -----BEGIN ... PRIVATE KEY----- or -----END ... PRIVATE KEY-----, with a kind of key from k on
      that ends at m. */
  predicate PemLine(t: Text, i: nat, w: string, m: nat) {
    && At(t, i, w) && i + |w| < m <= |t| && (forall k :: i + |w| <= k < m ==> Upper(t[k]) || t[k] == Rune(' '))
    && At(t, m, "PRIVATE KEY-----")
  }

  predicate PemKey(t: Text, i: nat, m: nat, j: nat, n: nat) {
    PemLine(t, i, "-----BEGIN ", m) && m + 16 < j && PemLine(t, j, "-----END ", n)
  }

  ghost predicate NoSecret(t: Text) {
    && (forall i: nat, e: nat, v: nat :: !AwsSecret(t, i, e, v))
    && (forall i: nat, m: nat, j: nat, n: nat :: !PemKey(t, i, m, j, n))
    && (forall i: nat :: !AwsKey(t, i)) && (forall i: nat :: !OpenAiKey(t, i)) && (forall i: nat :: !VaultToken(t, i))
    && (forall i: nat :: !GithubToken(t, i)) && (forall i: nat :: !SlackToken(t, i))
    && (forall i: nat, d: nat, e: nat :: !Jwt(t, i, d, e))
  }

  /* ---- Each of them is a match ---- */

  lemma {:induction false} WordMatches(w: string)
    ensures Matches(Word(w), Runes(w))
  {
    if w != [] {
      WordMatches(w[1..]);
      MatchOne(Exactly(Lit(w[0]), 1), [Rune(w[0])]);
      MatchConcat([Exactly(Lit(w[0]), 1)], Word(w[1..]), [Rune(w[0])], Runes(w[1..]));
      assert [Exactly(Lit(w[0]), 1)] + Word(w[1..]) == Word(w) && [Rune(w[0])] + Runes(w[1..]) == Runes(w);
    }
  }

  /** A run of characters of the class. */
  lemma RunMatches(it: Item, t: Text, a: nat, b: nat)
    requires a <= b <= |t| && it.min <= b - a && (it.max.Some? ==> b - a <= it.max.value)
    requires forall k :: a <= k < b ==> Has(it.class_, t[k])
    ensures Matches([it], t[a..b])
  {
    MatchOne(it, t[a..b]);
  }

  /** p matches t[a..b] and q matches t[b..c]. */
  lemma Joined(p: Pattern, q: Pattern, t: Text, a: nat, b: nat, c: nat)
    requires a <= b <= c <= |t| && Matches(p, t[a..b]) && Matches(q, t[b..c])
    ensures Matches(p + q, t[a..c])
  {
    MatchConcat(p, q, t[a..b], t[b..c]);
    assert t[a..b] + t[b..c] == t[a..c];
  }

  lemma KeyMatches(re: Redactor, w: string, it: Item, t: Text, i: nat, n: nat)
    requires re == [Word(w) + [it]] && At(t, i, w) && i + |w| + n <= |t| && it.min <= n
             && (it.max.Some? ==> n <= it.max.value)
    requires forall k :: i + |w| <= k < i + |w| + n ==> Has(it.class_, t[k])
    ensures !Clean(re, t)
  {
    hide Matches;
    WordMatches(w);
    RunMatches(it, t, i + |w|, i + |w| + n);
    Joined(Word(w), [it], t, i, i + |w|, i + |w| + n);
    assert re[0] == Word(w) + [it];
    assert MatchesAny(re, t[i..i + |w| + n]);
  }

  lemma MarkedKeyMatches(re: Redactor, w: string, a: Item, b: Item, it: Item, t: Text, i: nat, n: nat)
    requires re == [Word(w) + [a, b, it]] && a.min == b.min == 1 && a.max == b.max == Some(1)
    requires At(t, i, w) && i + |w| + 2 + n <= |t| && it.min <= n && it.max == None
    requires Has(a.class_, t[i + |w|]) && Has(b.class_, t[i + |w| + 1])
    requires forall k :: i + |w| + 2 <= k < i + |w| + 2 + n ==> Has(it.class_, t[k])
    ensures !Clean(re, t)
  {
    hide Matches, Has;
    var m := i + |w|;
    WordMatches(w);
    RunMatches(a, t, m, m + 1);
    RunMatches(b, t, m + 1, m + 2);
    RunMatches(it, t, m + 2, m + 2 + n);
    Joined([b], [it], t, m + 1, m + 2, m + 2 + n);
    Joined([a], [b] + [it], t, m, m + 1, m + 2 + n);
    Joined(Word(w), [a] + ([b] + [it]), t, i, m, m + 2 + n);
    assert [a] + ([b] + [it]) == [a, b, it];
    assert re[0] == Word(w) + [a, b, it];
    assert MatchesAny(re, t[i..m + 2 + n]);
  }

  lemma JwtMatches(t: Text, i: nat, d: nat, e: nat)
    requires Jwt(t, i, d, e)
    ensures !Clean(JWT, t)
  {
    hide Matches;
    WordMatches("eyJ");
    RunMatches(BLOB10, t, i + 3, d);
    RunMatches(DOT, t, d, d + 1);
    RunMatches(BLOB10, t, d + 1, e);
    RunMatches(DOT, t, e, e + 1);
    RunMatches(BLOB10, t, e + 1, e + 11);
    Joined([DOT], [BLOB10], t, e, e + 1, e + 11);
    var q := [BLOB10] + ([DOT] + [BLOB10]);
    Joined([BLOB10], [DOT] + [BLOB10], t, d + 1, e, e + 11);
    Joined([DOT], q, t, d, d + 1, e + 11);
    Joined([BLOB10], [DOT] + q, t, i + 3, d, e + 11);
    Joined(Word("eyJ"), [BLOB10] + ([DOT] + q), t, i, i + 3, e + 11);
    assert JWT[0] == Word("eyJ") + ([BLOB10] + ([DOT] + q));
    assert MatchesAny(JWT, t[i..e + 11]);
  }

  lemma CleanOfKeys(t: Text)
    requires Clean(AWS_KEY, t) && Clean(OPENAI, t) && Clean(VAULT, t)
    ensures forall i: nat :: !AwsKey(t, i) && !OpenAiKey(t, i) && !VaultToken(t, i)
  {
    hide Clean, At;
    forall i: nat
      ensures !AwsKey(t, i) && !OpenAiKey(t, i) && !VaultToken(t, i)
    {
      if AwsKey(t, i) {
        KeyMatches(AWS_KEY, "AKIA", Exactly(UpperDigit, 16), t, i, 16);
      }
      if OpenAiKey(t, i) {
        KeyMatches(OPENAI, "sk-", AtLeast(AlNum(""), 20), t, i, 20);
      }
      if VaultToken(t, i) {
        KeyMatches(VAULT, "hvs.", AtLeast(AlNum("_-"), 20), t, i, 20);
      }
    }
  }

  lemma CleanOfTokens(t: Text)
    requires Clean(GITHUB, t) && Clean(SLACK, t)
    ensures forall i: nat :: !GithubToken(t, i) && !SlackToken(t, i)
  {
    hide Clean, At;
    forall i: nat
      ensures !GithubToken(t, i) && !SlackToken(t, i)
    {
      if GithubToken(t, i) {
        var kind, mark := Exactly(OneOf("pousr"), 1), Exactly(Lit('_'), 1);
        MarkedKeyMatches(GITHUB, "gh", kind, mark, AtLeast(AlNum(""), 36), t, i, 36);
      }
      if SlackToken(t, i) {
        var kind, mark := Exactly(OneOf("abprs"), 1), Exactly(Lit('-'), 1);
        MarkedKeyMatches(SLACK, "xox", kind, mark, AtLeast(AlNum("-"), 10), t, i, 10);
      }
    }
  }

  lemma {:induction false} AnyCaseMatches(w: string, t: Text, i: nat)
    requires AtAnyCase(t, i, w)
    ensures Matches(AnyCase(w), t[i..i + |w|])
  {
    if w == [] {
      assert t[i..i] == [];
    } else {
      assert forall k :: 0 <= k < |w| - 1 ==> w[1..][k] == w[k + 1] && t[i + 1 + k] == t[i + (k + 1)];
      assert Letter(t[i + 0], w[0]);
      AnyCaseMatches(w[1..], t, i + 1);
      RunMatches(Exactly(Fold(w[0]), 1), t, i, i + 1);
      Joined([Exactly(Fold(w[0]), 1)], AnyCase(w[1..]), t, i, i + 1, i + |w|);
      assert [Exactly(Fold(w[0]), 1)] + AnyCase(w[1..]) == AnyCase(w);
    }
  }

  lemma AwsMatches(t: Text, i: nat, e: nat, v: nat)
    requires AwsSecret(t, i, e, v)
    ensures !Clean(AWS_SECRET, t)
  {
    hide Matches, Letter;
    var eq, ink := Exactly(Lit('='), 1), AtLeast(NoneOf(SPACES), 1);
    AnyCaseMatches("aws_secret_access_key", t, i);
    RunMatches(GAP, t, i + 21, e);
    RunMatches(eq, t, e, e + 1);
    RunMatches(GAP, t, e + 1, v);
    RunMatches(ink, t, v, v + 1);
    Joined([GAP], [ink], t, e + 1, v, v + 1);
    Joined([eq], [GAP] + [ink], t, e, e + 1, v + 1);
    Joined([GAP], [eq] + ([GAP] + [ink]), t, i + 21, e, v + 1);
    Joined(AnyCase("aws_secret_access_key"), [GAP] + ([eq] + ([GAP] + [ink])), t, i, i + 21, v + 1);
    assert AWS_SECRET[0] == AnyCase("aws_secret_access_key") + ([GAP] + ([eq] + ([GAP] + [ink])));
    assert MatchesAny(AWS_SECRET, t[i..v + 1]);
  }

  lemma PemLineMatches(t: Text, i: nat, w: string, m: nat)
    requires PemLine(t, i, w, m)
    ensures m + 16 <= |t|
    ensures Matches(Word(w) + [AtLeast(UpperSpace, 1)] + Word("PRIVATE KEY-----"), t[i..m + 16])
  {
    hide Matches, Word;
    WordMatches(w);
    WordMatches("PRIVATE KEY-----");
    RunMatches(AtLeast(UpperSpace, 1), t, i + |w|, m);
    Joined(Word(w), [AtLeast(UpperSpace, 1)], t, i, i + |w|, m);
    Joined(Word(w) + [AtLeast(UpperSpace, 1)], Word("PRIVATE KEY-----"), t, i, m, m + 16);
  }

  lemma PemMatches(t: Text, i: nat, m: nat, j: nat, n: nat)
    requires PemKey(t, i, m, j, n)
    ensures !Clean(PEM, t)
  {
    hide Matches, Word;
    PemLineMatches(t, i, "-----BEGIN ", m);
    PemLineMatches(t, j, "-----END ", n);
    RunMatches(RedactLoose.BODY, t, m + 16, j);
    RedactLoose.PemShape();
    Joined([RedactLoose.BODY], RedactLoose.PEM_END, t, m + 16, j, n + 16);
    Joined(RedactLoose.PEM_BEGIN, [RedactLoose.BODY] + RedactLoose.PEM_END, t, i, m + 16, n + 16);
    RedactLoose.OneAlternative(RedactLoose.PEM_BEGIN + ([RedactLoose.BODY] + RedactLoose.PEM_END), t[i..n + 16]);
  }

  /** A loose assignment: a keyword that ends at a, a colon or equals sign at s, perhaps a quote,
      and from v to e at least six characters that are neither spaces nor quotes. */
  predicate Assignment(t: Text, w: string, i: nat, a: nat, s: nat, v: nat, e: nat) {
    && w in {"password", "passwd", "secret", "token", "apikey", "api_key", "api-key"}
    && AtAnyCase(t, i, w) && a == i + |w| && Whites(t, a, s) && s < v && v + 6 <= e <= |t| && t[s] in Runes(":=")
    && (Whites(t, s + 1, v) || (Whites(t, s + 1, v - 1) && Quote(t[v - 1])))
    && forall k :: v <= k < e ==> !White(t[k]) && !Quote(t[k])
  }

  predicate Quote(x: Sym) { x == Rune('"') || x == Rune('\'') }

  /** Every such assignment is a match of the last pattern. */
  lemma AssignmentMatches(t: Text, w: string, i: nat, a: nat, s: nat, v: nat, e: nat)
    requires Assignment(t, w, i, a, s, v, e)
    ensures MatchesAny(KEY_VALUE, t[i..e])
  {
    hide Matches, Letter, Has, AtAnyCase;
    AssignedMatches(t, a, s, v, e);
    KeywordMatches(t, w, i);
    var k := Number(w);
    Joined(Keyword(k), ASSIGNED, t, i, a, e);
    assert KEY_VALUE[k] == Keyword(k) + ASSIGNED;
  }

  /** Which alternative is for this keyword. */
  function Number(w: string): nat {
    if w == "password" then 0 else if w == "passwd" then 1 else if w == "secret" then 2
    else if w == "token" then 3 else 4
  }

  function Keyword(k: nat): Pattern {
    if k == 0 then AnyCase("password") else if k == 1 then AnyCase("passwd") else if k == 2 then AnyCase("secret")
    else if k == 3 then AnyCase("token") else AnyCase("api") + [Optional(OneOf("_-"))] + AnyCase("key")
  }

  lemma KeywordMatches(t: Text, w: string, i: nat)
    requires w in {"password", "passwd", "secret", "token", "apikey", "api_key", "api-key"} && AtAnyCase(t, i, w)
    ensures Matches(Keyword(Number(w)), t[i..i + |w|])
  {
    hide Matches;
    if w in {"password", "passwd", "secret", "token"} {
      AnyCaseMatches(w, t, i);
    } else {
      var opt, n := Optional(OneOf("_-")), |w| - 6;
      assert w[..3] == "api" && w[3 + n..] == "key";
      assert forall k :: 0 <= k < 3 ==> "api"[k] == w[k] && "key"[k] == w[3 + n + k];
      AnyCaseMatches("api", t, i);
      AnyCaseMatches("key", t, i + 3 + n);
      SeparatorMatches(t, w, i, n);
      Joined(AnyCase("api"), [opt], t, i, i + 3, i + 3 + n);
      Joined(AnyCase("api") + [opt], AnyCase("key"), t, i, i + 3 + n, i + |w|);
    }
  }

  lemma SeparatorMatches(t: Text, w: string, i: nat, n: nat)
    requires w in {"apikey", "api_key", "api-key"} && AtAnyCase(t, i, w) && n == |w| - 6
    ensures Matches([Optional(OneOf("_-"))], t[i + 3..i + 3 + n])
  {
    hide Matches;
    if n == 1 {
      assert Letter(t[i + 3], w[3]);
    }
    RunMatches(Optional(OneOf("_-")), t, i + 3, i + 3 + n);
  }

  lemma AssignedMatches(t: Text, a: nat, s: nat, v: nat, e: nat)
    requires Whites(t, a, s) && s < v && v + 6 <= e <= |t| && t[s] in Runes(":=")
    requires Whites(t, s + 1, v) || (Whites(t, s + 1, v - 1) && Quote(t[v - 1]))
    requires forall k :: v <= k < e ==> !White(t[k]) && !Quote(t[k])
    ensures Matches(ASSIGNED, t[a..e])
  {
    hide Matches;
    var sep, opt, value := Exactly(OneOf(":="), 1), Optional(OneOf("\"'")), AtLeast(NoneOf(SPACES + "\"'"), 6);
    var q := if Whites(t, s + 1, v) then v else v - 1;
    RunMatches(GAP, t, a, s);
    RunMatches(sep, t, s, s + 1);
    RunMatches(GAP, t, s + 1, q);
    RunMatches(opt, t, q, v);
    RunMatches(value, t, v, e);
    Joined([opt], [value], t, q, v, e);
    Joined([GAP], [opt] + [value], t, s + 1, q, e);
    Joined([sep], [GAP] + ([opt] + [value]), t, s, s + 1, e);
    Joined([GAP], [sep] + ([GAP] + ([opt] + [value])), t, a, s, e);
    assert ASSIGNED == [GAP] + ([sep] + ([GAP] + ([opt] + [value])));
  }

  lemma CleanHasNoSecret(t: Text)
    requires (forall re :: re in PREFIXED ==> Clean(re, t)) && Clean(AWS_SECRET, t) && Clean(PEM, t)
    ensures NoSecret(t)
  {
    hide Clean, Jwt, AwsKey, OpenAiKey, VaultToken, GithubToken, SlackToken, AwsSecret, PemKey;
    assert Clean(AWS_KEY, t) && Clean(OPENAI, t) && Clean(VAULT, t) && Clean(GITHUB, t) && Clean(SLACK, t)
           && Clean(JWT, t);
    CleanOfKeys(t);
    CleanOfTokens(t);
    forall i: nat, d: nat, e: nat
      ensures !Jwt(t, i, d, e)
    {
      if Jwt(t, i, d, e) {
        JwtMatches(t, i, d, e);
      }
    }
    forall i: nat, e: nat, v: nat
      ensures !AwsSecret(t, i, e, v)
    {
      if AwsSecret(t, i, e, v) {
        AwsMatches(t, i, e, v);
      }
    }
    forall i: nat, m: nat, j: nat, n: nat
      ensures !PemKey(t, i, m, j, n)
    {
      if PemKey(t, i, m, j, n) {
        PemMatches(t, i, m, j, n);
      }
    }
  }

  /** Nowhere in a redacted string stands an AWS key or an assignment of an AWS secret, an OpenAI
      key, a Vault, GitHub or Slack token, a JWT or a PEM private key, as spelled out above. */
  lemma RedactedHasNoSecret(b: Bytes)
    ensures NoSecret(Decode(Redact(b)))
  {
    hide Clean, Decode, Redact, NoSecret;
    NothingPrefixedIsLeft(b);
    RedactLoose.AwsGone(b);
    RedactLoose.PemGone(b);
    CleanHasNoSecret(Decode(Redact(b)));
  }
}
