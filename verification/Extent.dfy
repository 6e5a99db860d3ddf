/** How much of a text a pass removes: exactly where it puts its markers, and that a match is the
    longest there is, so that no tail of a secret stays behind. */
module Extent {
  import opened Prelude
  import opened Utf8
  import opened Patterns
  import opened Preference
  import opened Redaction
  import opened RedactChain
  import opened RedactLoose

  /* ---- Where the markers go ---- */

  /** s[from..to] gives way to a marker. */
  datatype Cut = Cut(from: nat, to: nat)

  /** From position i on: each cut is the match found where it begins, they follow one another,
      and no match begins anywhere outside them. */
  ghost predicate CutsFrom(re: Redactor, s: Text, i: nat, cuts: seq<Cut>) {
    && i <= |s|
    && (forall k :: 0 <= k < |cuts| ==> CutAt(re, s, cuts[k]) && i <= cuts[k].from)
    && (forall k, m :: 0 <= k < m < |cuts| ==> cuts[k].to <= cuts[m].from)
    && (forall x :: i <= x < |s| && Outside(cuts, x) ==> !Hit(re, s[x..]))
  }

  predicate CutAt(re: Redactor, s: Text, c: Cut) {
    c.from < c.to <= |s| && FirstMatch(re, s[c.from..]) == Some(c.to - c.from)
  }

  predicate Outside(cuts: seq<Cut>, x: int) { forall k :: 0 <= k < |cuts| ==> !(cuts[k].from <= x < cuts[k].to) }

  /** s from position i on, with a marker for each cut and all else as it was. */
  function Spliced(s: Text, i: nat, cuts: seq<Cut>): Text
    requires i <= |s|
    decreases |cuts|
  {
    if cuts == [] then s[i..]
    else if i <= cuts[0].from <= cuts[0].to <= |s|
    then s[i..cuts[0].from] + MARKER + Spliced(s, cuts[0].to, cuts[1..])
    else []
  }

  lemma RestCuts(re: Redactor, s: Text, i: nat, cuts: seq<Cut>)
    requires CutsFrom(re, s, i, cuts) && cuts != []
    ensures cuts[0].to <= |s| && CutsFrom(re, s, cuts[0].to, cuts[1..])
  {
    hide FirstMatch, Hit;
    assert CutAt(re, s, cuts[0]);
    var rest := cuts[1..];
    forall k | 0 <= k < |rest|
      ensures CutAt(re, s, rest[k]) && cuts[0].to <= rest[k].from
    {
      assert rest[k] == cuts[k + 1] && CutAt(re, s, cuts[k + 1]);
    }
    forall x | cuts[0].to <= x < |s| && Outside(rest, x)
      ensures !Hit(re, s[x..])
    {
      assert Outside(cuts, x) by {
        forall k | 0 <= k < |cuts|
          ensures !(cuts[k].from <= x < cuts[k].to)
        {
          assert k > 0 ==> rest[k - 1] == cuts[k];
        }
      }
    }
  }

  lemma UnhitUpTo(re: Redactor, s: Text, i: nat, n: nat)
    requires i <= n <= |s| && forall x :: i <= x < n ==> !Hit(re, s[x..])
    ensures Replace(re, s[i..]) == s[i..n] + Replace(re, s[n..])
  {
    hide Hit, Replace;
    forall k | 0 <= k < n - i
      ensures !Hit(re, s[i..][k..])
    {
      assert s[i..][k..] == s[i + k..];
    }
    Unhit(re, s[i..], n - i);
    assert s[i..][..n - i] == s[i..n] && s[i..][n - i..] == s[n..];
  }

  lemma {:induction false} ReplaceFrom(re: Redactor, s: Text, i: nat, cuts: seq<Cut>)
    requires CutsFrom(re, s, i, cuts)
    ensures Replace(re, s[i..]) == Spliced(s, i, cuts)
    decreases |cuts|
  {
    hide FirstMatch, Hit, Replace;
    if cuts == [] {
      UnhitUpTo(re, s, i, |s|);
      NothingReplaced(re, s);
    } else {
      var c := cuts[0];
      assert CutAt(re, s, c);
      forall x | i <= x < c.from
        ensures Outside(cuts, x)
      {
      }
      UnhitUpTo(re, s, i, c.from);
      HitReplaced(re, s, c);
      RestCuts(re, s, i, cuts);
      ReplaceFrom(re, s, c.to, cuts[1..]);
    }
  }

  lemma NothingReplaced(re: Redactor, s: Text)
    ensures Replace(re, s[|s|..]) == [] && s[|s|..] == []
  {
  }

  lemma HitReplaced(re: Redactor, s: Text, c: Cut)
    requires CutAt(re, s, c)
    ensures Replace(re, s[c.from..]) == MARKER + Replace(re, s[c.to..])
  {
    hide FirstMatch;
    assert s[c.from..][c.to - c.from..] == s[c.to..];
  }

  lemma {:induction false} SomeCuts(re: Redactor, s: Text, i: nat) returns (cuts: seq<Cut>)
    requires i <= |s|
    ensures CutsFrom(re, s, i, cuts)
    decreases |s| - i
  {
    hide FirstMatch;
    if i == |s| {
      cuts := [];
    } else if Hit(re, s[i..]) {
      var c := Cut(i, i + FirstMatch(re, s[i..]).value);
      var rest := SomeCuts(re, s, c.to);
      cuts := [c] + rest;
      AddCut(re, s, c, rest);
    } else {
      cuts := SomeCuts(re, s, i + 1);
      forall x | i <= x < |s| && Outside(cuts, x)
        ensures !Hit(re, s[x..])
      {
        assert x == i || i + 1 <= x;
      }
    }
  }

  lemma AddCut(re: Redactor, s: Text, c: Cut, rest: seq<Cut>)
    requires CutAt(re, s, c) && CutsFrom(re, s, c.to, rest)
    ensures CutsFrom(re, s, c.from, [c] + rest)
  {
    hide FirstMatch, Hit;
    var cuts := [c] + rest;
    assert forall k :: 0 <= k < |cuts| ==> cuts[k] == if k == 0 then c else rest[k - 1];
    forall x | c.from <= x < |s| && Outside(cuts, x)
      ensures !Hit(re, s[x..])
    {
      assert !(cuts[0].from <= x < cuts[0].to);
      assert Outside(rest, x) by {
        assert forall k :: 0 <= k < |rest| ==> cuts[k + 1] == rest[k];
      }
    }
  }

  /** A pass puts one marker for each match found from the left, none of them overlapping, and
      changes nothing else. */
  lemma ReplaceIs(re: Redactor, s: Text, t: Text)
    ensures MARKER == Runes("[REDACTED]")
    ensures Replace(re, s) == t <==> exists cuts :: CutsFrom(re, s, 0, cuts) && t == Spliced(s, 0, cuts)
  {
    hide Replace, FirstMatch, Hit, Spliced;
    assert s[0..] == s;
    var some := SomeCuts(re, s, 0);
    ReplaceFrom(re, s, 0, some);
    forall cuts | CutsFrom(re, s, 0, cuts)
      ensures Replace(re, s) == Spliced(s, 0, cuts)
    {
      ReplaceFrom(re, s, 0, cuts);
    }
  }

  /* ---- Patterns with only one way to match but for their last item ---- */

  ghost predicate Disjoint(k: Class, l: Class) { forall x :: !(Has(k, x) && Has(l, x)) }

  /** Whatever q takes begins with a character not of class k. */
  ghost predicate Apart(k: Class, q: Pattern) {
    q != [] && Disjoint(k, q[0].class_) && (q[0].min >= 1 || Apart(k, q[1..]))
  }

  predicate Exact(it: Item) { it.max == Some(it.min) }

  /** Each item but the last is forced: its count is fixed, or ended by what must follow. */
  ghost predicate Forced(p: Pattern) {
    |p| <= 1 || ((Exact(p[0]) || Apart(p[0].class_, p[1..])) && Forced(p[1..]))
  }

  lemma {:induction false} ApartStart(k: Class, q: Pattern, s: Text, ks: Counts)
    requires Apart(k, q) && Takes(q, s, ks)
    ensures s != [] && !Has(k, s[0])
  {
    if ks[0] > 0 {
      assert s[..ks[0]][0] in s[..ks[0]];
    } else {
      assert s[0..] == s;
      ApartStart(k, q[1..], s[ks[0]..], ks[1..]);
    }
  }

  lemma NotShorter(p: Pattern, s: Text, ks: Counts, ms: Counts)
    requires |p| > 1 && Forced(p) && Takes(p, s, ks) && Takes(p, s, ms)
    ensures ks[0] >= ms[0]
  {
    if ks[0] < ms[0] && !Exact(p[0]) {
      InRun(p[0], s, ms[0], ks[0]);
      ApartStart(p[0].class_, p[1..], s[ks[0]..], ks[1..]);
    }
  }

  lemma InRun(it: Item, s: Text, m: nat, k: nat)
    requires k < m <= |s| && Repeats(it, s[..m])
    ensures Has(it.class_, s[k])
  {
    assert s[..m][k] in s[..m];
  }

  lemma TailFirst(p: Pattern, s: Text, ks: Counts)
    requires p != [] && First(p, s, ks)
    ensures ks[0] <= |s| && First(p[1..], s[ks[0]..], ks[1..])
  {
    var k := ks[0];
    forall ms: Counts | Takes(p[1..], s[k..], ms) && |ms| == |p[1..]| && ms != ks[1..]
      ensures Before(p[1..], ks[1..], ms)
    {
      var all := [k] + ms;
      assert all[1..] == ms && all != ks;
      assert Takes(p, s, all);
      assert Before(p, ks, all);
    }
  }

  /** Of such a pattern, with a greedy last item, the match taken is the longest. */
  lemma {:induction false} LongestTaken(p: Pattern, s: Text, ks: Counts, ms: Counts)
    requires p != [] && Forced(p) && !p[|p| - 1].lazy && First(p, s, ks) && Takes(p, s, ms)
    ensures Total(ms) <= Total(ks)
    decreases |p|
  {
    TakesLength(p, s, ms);
    if |p| == 1 {
      assert ks[1..] == [] && ms[1..] == [];
      assert ms != ks ==> Before(p, ks, ms);
    } else {
      NotShorter(p, s, ks, ms);
      NotShorter(p, s, ms, ks);
      TailFirst(p, s, ks);
      LongestTaken(p[1..], s[ks[0]..], ks[1..], ms[1..]);
    }
  }

  lemma LongestMatch(p: Pattern, s: Text, n: nat, e: nat)
    requires p != [] && Forced(p) && !p[|p| - 1].lazy
    requires MatchAt(p, s) == Some(n) && e <= |s| && Matches(p, s[..e])
    ensures e <= n
  {
    hide First, Takes, Forced, MatchAt, Matches;
    var ks := FirstTaken(p, s);
    var ms := MatchesTakes(p, s, e);
    LongestTaken(p, s, ks, ms);
  }

  /** If the last item may take any number, what follows the match is not of its class. */
  lemma NothingToTake(p: Pattern, s: Text, n: nat)
    requires p != [] && Forced(p) && !p[|p| - 1].lazy && p[|p| - 1].max == None
    requires MatchAt(p, s) == Some(n)
    ensures n <= |s| && (n < |s| ==> !Has(p[|p| - 1].class_, s[n]))
  {
    hide Forced, MatchAt, Matches;
    if n < |s| && Has(p[|p| - 1].class_, s[n]) {
      MatchAtSound(p, s);
      OneMore(p, s, n);
      LongestMatch(p, s, n, n + 1);
    }
  }

  lemma OneMore(p: Pattern, s: Text, n: nat)
    requires p != [] && p[|p| - 1].max == None && n < |s| && Matches(p, s[..n]) && Has(p[|p| - 1].class_, s[n])
    ensures Matches(p, s[..n + 1])
  {
    hide Matches, Has;
    var front, last := p[..|p| - 1], p[|p| - 1];
    assert p == front + [last];
    var m := MatchSplit(front, [last], s[..n]);
    MatchOne(last, s[..n][m..]);
    var w := s[..n][m..] + [s[n]];
    assert forall c :: c in w ==> c in s[..n][m..] || c == s[n];
    MatchOne(last, w);
    MatchConcat(front, [last], s[..n][..m], w);
    assert s[..n][..m] + w == s[..n + 1];
  }

  /* ---- The nine patterns ---- */

  lemma {:induction false} ForcedAfter(head: Pattern, tail: Pattern)
    requires (forall i :: 0 <= i < |head| ==> Exact(head[i])) && Forced(tail)
    ensures Forced(head + tail)
  {
    if head == [] {
      assert head + tail == tail;
    } else {
      assert (head + tail)[1..] == head[1..] + tail;
      ForcedAfter(head[1..], tail);
    }
  }

  lemma ForcedStep(it: Item, q: Pattern)
    requires (Exact(it) || Apart(it.class_, q)) && Forced(q)
    ensures Forced([it] + q)
  {
    assert ([it] + q)[1..] == q;
  }

  lemma ApartNext(k: Class, it: Item, q: Pattern)
    requires Disjoint(k, it.class_) && (it.min >= 1 || Apart(k, q))
    ensures Apart(k, [it] + q)
  {
    assert ([it] + q)[1..] == q;
  }

  lemma ForcedOne(it: Item)
    ensures Forced([it])
  {
  }

  /** Every alternative is forced up to a greedy last item. */
  ghost predicate TakesAll(re: Redactor) {
    forall k :: 0 <= k < |re| ==> re[k] != [] && Forced(re[k]) && !re[k][|re[k]| - 1].lazy
  }

  lemma WordTakesAll(w: string, mid: Pattern, last: Item)
    requires !last.lazy && forall i :: 0 <= i < |mid| ==> Exact(mid[i])
    ensures TakesAll([Word(w) + (mid + [last])])
  {
    hide Forced;
    ForcedOne(last);
    ForcedAfter(mid, [last]);
    ForcedAfter(Word(w), mid + [last]);
  }

  lemma ShortOnes()
    ensures TakesAll(AWS_KEY) && TakesAll(OPENAI) && TakesAll(VAULT)
  {
    hide TakesAll;
    WordTakesAll("AKIA", [], Exactly(UpperDigit, 16));
    WordTakesAll("sk-", [], AtLeast(AlNum(""), 20));
    WordTakesAll("hvs.", [], AtLeast(AlNum("_-"), 20));
    assert forall it: Item :: [] + [it] == [it];
  }

  lemma GithubTakesAll()
    ensures TakesAll(GITHUB)
  {
    hide TakesAll;
    var mid, last := [Exactly(OneOf("pousr"), 1), Exactly(Lit('_'), 1)], AtLeast(AlNum(""), 36);
    WordTakesAll("gh", mid, last);
    assert GITHUB[0] == Word("gh") + (mid + [last]);
  }

  lemma SlackTakesAll()
    ensures TakesAll(SLACK)
  {
    hide TakesAll;
    var mid, last := [Exactly(OneOf("abprs"), 1), Exactly(Lit('-'), 1)], AtLeast(AlNum("-"), 10);
    WordTakesAll("xox", mid, last);
    assert SLACK[0] == Word("xox") + (mid + [last]);
  }

  lemma JwtTakesAll()
    ensures TakesAll(JWT)
  {
    hide Forced, Apart;
    ForcedOne(BLOB10);
    ForcedStep(DOT, [BLOB10]);
    ApartNext(BLOB10.class_, DOT, [BLOB10]);
    ForcedStep(BLOB10, [DOT] + [BLOB10]);
    var q := [BLOB10] + ([DOT] + [BLOB10]);
    ForcedStep(DOT, q);
    ApartNext(BLOB10.class_, DOT, q);
    ForcedStep(BLOB10, [DOT] + q);
    ForcedAfter(Word("eyJ"), [BLOB10] + ([DOT] + q));
    assert JWT[0] == Word("eyJ") + ([BLOB10] + ([DOT] + q));
  }

  lemma AwsTakesAll()
    ensures TakesAll(AWS_SECRET)
  {
    hide Forced, Apart;
    var eq, ink := Exactly(Lit('='), 1), AtLeast(NoneOf(SPACES), 1);
    ForcedOne(ink);
    ApartNext(GAP.class_, ink, []);
    assert [ink] + [] == [ink];
    ForcedStep(GAP, [ink]);
    ForcedStep(eq, [GAP] + [ink]);
    ApartNext(GAP.class_, eq, [GAP] + [ink]);
    ForcedStep(GAP, [eq] + ([GAP] + [ink]));
    ForcedAfter(AnyCase("aws_secret_access_key"), [GAP] + ([eq] + ([GAP] + [ink])));
    assert AWS_SECRET[0] == AnyCase("aws_secret_access_key") + ([GAP] + ([eq] + ([GAP] + [ink])));
  }

  lemma AssignedForced()
    ensures Forced(ASSIGNED)
  {
    hide Forced, Apart;
    var sep, opt, value := Exactly(OneOf(":="), 1), Optional(OneOf("\"'")), AtLeast(NoneOf(SPACES + "\"'"), 6);
    ForcedOne(value);
    QuotesApart();
    ApartNext(opt.class_, value, []);
    assert [value] + [] == [value];
    ForcedStep(opt, [value]);
    ApartNext(GAP.class_, value, []);
    ApartNext(GAP.class_, opt, [value]);
    ForcedStep(GAP, [opt] + [value]);
    var q := [GAP] + ([opt] + [value]);
    ForcedStep(sep, q);
    ApartNext(GAP.class_, sep, q);
    ForcedStep(GAP, [sep] + q);
    assert ASSIGNED == [GAP] + ([sep] + q);
  }

  lemma QuotesApart()
    ensures Disjoint(OneOf("\"'"), NoneOf(SPACES + "\"'")) && Disjoint(GAP.class_, NoneOf(SPACES + "\"'"))
    ensures Disjoint(GAP.class_, OneOf("\"'")) && Disjoint(GAP.class_, OneOf(":="))
  {
    assert forall c :: c in SPACES ==> c in SPACES + "\"'";
    assert forall c :: c in "\"'" ==> c in SPACES + "\"'";
  }

  lemma KeyValueTakesAll()
    ensures TakesAll(KEY_VALUE)
  {
    hide Forced, Apart;
    AssignedForced();
    ForcedAfter(AnyCase("password"), ASSIGNED);
    ForcedAfter(AnyCase("passwd"), ASSIGNED);
    ForcedAfter(AnyCase("secret"), ASSIGNED);
    ForcedAfter(AnyCase("token"), ASSIGNED);
    ForcedAfter(AnyCase("key"), ASSIGNED);
    var opt, rest := Optional(OneOf("_-")), AnyCase("key") + ASSIGNED;
    assert rest[0] == Exactly(Fold('k'), 1) && rest == [rest[0]] + rest[1..];
    ApartNext(opt.class_, rest[0], rest[1..]);
    ForcedStep(opt, rest);
    ForcedAfter(AnyCase("api"), [opt] + rest);
    assert KEY_VALUE[4] == AnyCase("api") + ([opt] + rest);
  }

  /* ---- Alternatives ---- */

  /** Words of two patterns, one of which begins the other. */
  ghost predicate Both(p: Pattern, u: Text, q: Pattern, v: Text) {
    Matches(p, u) && Matches(q, v) && (u <= v || v <= u)
  }

  /** No text begins with matches of two alternatives. */
  ghost predicate Exclusive(re: Redactor) {
    forall j, k, u, v :: 0 <= j < |re| && 0 <= k < |re| && Both(re[j], u, re[k], v) ==> j == k
  }

  lemma {:induction false} KeywordChar(w: string, tail: Pattern, u: Text, i: nat)
    requires Matches(AnyCase(w) + tail, u) && i < |w|
    ensures i < |u| && Has(Fold(w[i]), u[i])
  {
    var p := AnyCase(w) + tail;
    assert p[1..] == AnyCase(w[1..]) + tail;
    var k: nat :| Splits(p, u, k);
    assert p[0] == Exactly(Fold(w[0]), 1) && k == 1;
    assert u[..1][0] in u[..1];
    if i > 0 {
      KeywordChar(w[1..], tail, u[1..], i - 1);
    }
  }

  /** The first letter of each keyword, and the one in which password and passwd differ. */
  function Letter(k: nat): char { if k <= 1 then 'p' else if k == 2 then 's' else if k == 3 then 't' else 'a' }

  lemma KeywordOf(k: nat, u: Text)
    requires k < 5 && Matches(KEY_VALUE[k], u)
    ensures u != [] && Has(Fold(Letter(k)), u[0])
    ensures k == 0 ==> |u| > 5 && Has(Fold('o'), u[5])
    ensures k == 1 ==> |u| > 5 && Has(Fold('d'), u[5])
  {
    hide Matches, Has;
    if k == 0 {
      KeywordChar("password", ASSIGNED, u, 0);
      KeywordChar("password", ASSIGNED, u, 5);
    } else if k == 1 {
      KeywordChar("passwd", ASSIGNED, u, 0);
      KeywordChar("passwd", ASSIGNED, u, 5);
    } else if k == 2 {
      KeywordChar("secret", ASSIGNED, u, 0);
    } else if k == 3 {
      KeywordChar("token", ASSIGNED, u, 0);
    } else {
      var rest := [Optional(OneOf("_-"))] + AnyCase("key") + ASSIGNED;
      assert KEY_VALUE[4] == AnyCase("api") + rest;
      KeywordChar("api", rest, u, 0);
    }
  }

  lemma KeywordsExclude()
    ensures Exclusive(KEY_VALUE)
  {
    hide Matches;
    forall j, k, u, v | 0 <= j < 5 && 0 <= k < 5 && Both(KEY_VALUE[j], u, KEY_VALUE[k], v)
      ensures j == k
    {
      KeywordOf(j, u);
      KeywordOf(k, v);
      assert u[0] == v[0];
      if j <= 1 && k <= 1 {
        assert u[5] == v[5];
      }
    }
  }

  lemma OneAlternativeExcludes(re: Redactor)
    ensures |re| == 1 ==> Exclusive(re)
  {
  }

  lemma LongestOf(re: Redactor, s: Text, n: nat, e: nat)
    requires TakesAll(re) && Exclusive(re) && FirstMatch(re, s) == Some(n) && e <= |s| && MatchesAny(re, s[..e])
    ensures e <= n
  {
    hide Matches, MatchAt, Forced, FirstMatch;
    FirstMatchIs(re, s, n);
    var k :| 0 <= k < |re| && Decided(re, s, n, k);
    var j :| 0 <= j < |re| && Matches(re[j], s[..e]);
    MatchAtSound(re[k], s);
    assert Both(re[j], s[..e], re[k], s[..n]);
    LongestMatch(re[k], s, n, e);
  }

  /* ---- Main results ---- */

  /** The patterns whose match is the longest one; the PEM block's is another matter. */
  const GREEDY: seq<Redactor> := [AWS_KEY, AWS_SECRET, GITHUB, SLACK, OPENAI, VAULT, JWT, KEY_VALUE]

  lemma GreedyTakesAll(re: Redactor)
    requires re in GREEDY
    ensures TakesAll(re) && Exclusive(re)
  {
    hide TakesAll, Exclusive;
    ShortOnes();
    GithubTakesAll();
    SlackTakesAll();
    JwtTakesAll();
    AwsTakesAll();
    KeyValueTakesAll();
    KeywordsExclude();
    OneAlternativeExcludes(re);
  }

  /** Each of these patterns, wherever it matches, takes the longest word it can: no part of a
      key, token or value stays behind because a shorter one would do. */
  lemma WholeSecretTaken(re: Redactor, s: Text, n: nat, e: nat)
    requires re in GREEDY && FirstMatch(re, s) == Some(n) && e <= |s| && MatchesAny(re, s[..e])
    ensures e <= n
  {
    hide TakesAll, Exclusive, FirstMatch, MatchesAny;
    GreedyTakesAll(re);
    LongestOf(re, s, n, e);
  }

  /** The last item of every alternative takes any number of characters of this class. */
  ghost predicate OpenEnded(re: Redactor, k: Class) {
    forall a :: 0 <= a < |re| ==> re[a] != [] && re[a][|re[a]| - 1].max == None && re[a][|re[a]| - 1].class_ == k
  }

  /** So what follows a marker that a pass put there is never a character the secret could have
      gone on with. */
  lemma NothingTrails(re: Redactor, k: Class, s: Text, cuts: seq<Cut>, i: nat)
    requires re in GREEDY && OpenEnded(re, k) && CutsFrom(re, s, 0, cuts) && i < |cuts|
    ensures cuts[i].to <= |s| && (cuts[i].to < |s| ==> !Has(k, s[cuts[i].to]))
  {
    hide MatchAt, Has, Forced, FirstMatch, Hit;
    GreedyTakesAll(re);
    var c := cuts[i];
    assert CutAt(re, s, c);
    var rest := s[c.from..];
    FirstMatchIs(re, rest, c.to - c.from);
    var a :| 0 <= a < |re| && Decided(re, rest, c.to - c.from, a);
    NothingToTake(re[a], rest, c.to - c.from);
    assert c.to < |s| ==> rest[c.to - c.from] == s[c.to];
  }

  lemma OpenEndedOnes()
    ensures OpenEnded(OPENAI, AlNum("")) && OpenEnded(GITHUB, AlNum("")) && OpenEnded(VAULT, AlNum("_-"))
    ensures OpenEnded(JWT, AlNum("_-")) && OpenEnded(SLACK, AlNum("-")) && OpenEnded(AWS_SECRET, NoneOf(SPACES))
    ensures OpenEnded(KEY_VALUE, NoneOf(SPACES + "\"'"))
  {
  }

  /* ---- The PEM block ---- */

  /** The first way to take p and then q is, after p, the first way to take q. */
  lemma {:induction false} AfterFirst(p: Pattern, q: Pattern, s: Text, ks: Counts) returns (b: nat)
    requires First(p + q, s, ks)
    ensures b <= |s| && Matches(p, s[..b]) && First(q, s[b..], ks[|p|..])
    ensures |ks| == |p| + |q| && Total(ks) == b + Total(ks[|p|..])
  {
    hide Before, Repeats;
    if p == [] {
      b := 0;
      assert p + q == q && s[0..] == s && ks[0..] == ks;
    } else {
      var k := ks[0];
      assert (p + q)[1..] == p[1..] + q && (p + q)[0] == p[0];
      TailFirst(p + q, s, ks);
      var rest := AfterFirst(p[1..], q, s[k..], ks[1..]);
      b := k + rest;
      assert s[k..][rest..] == s[b..] && ks[1..][|p| - 1..] == ks[|p|..];
      assert s[..b][..k] == s[..k] && s[..b][k..] == s[k..][..rest];
      assert Splits(p, s[..b], k);
    }
  }

  /** A private key block runs from its BEGIN line to the first END line after it: the block
      taken is a BEGIN line, a body of at least one character and an END line, and no END line
      begins earlier in the body (but at its very first character). */
  lemma PemTakesFirstEnd(s: Text, n: nat)
    requires FirstMatch(PEM, s) == Some(n)
    ensures exists b: nat, m: nat :: PemBlock(s, n, b, m)
  {
    hide Matches, MatchAt, First, FirstMatch, Total;
    PemShape();
    FirstMatchIs(PEM, s, n);
    var q := [BODY] + PEM_END;
    assert MatchAt(PEM_BEGIN + q, s) == Some(n);
    var ks := FirstTaken(PEM_BEGIN + q, s);
    var b := AfterFirst(PEM_BEGIN, q, s, ks);
    var tail := ks[|PEM_BEGIN|..];
    BodyIsShortest(s, b, tail);
    assert PemBlock(s, n, b, tail[0]);
  }

  ghost predicate EndLine(s: Text, x: int, e: int) { 0 <= x <= e <= |s| && Matches(PEM_END, s[x..e]) }

  ghost predicate PemBlock(s: Text, n: nat, b: nat, m: nat) {
    && 1 <= m && b + m <= n <= |s| && Matches(PEM_BEGIN, s[..b]) && EndLine(s, b + m, n)
    && forall x, e :: b < x < b + m ==> !EndLine(s, x, e)
  }

  lemma BodyIsShortest(s: Text, b: nat, ks: Counts)
    requires b <= |s| && First([BODY] + PEM_END, s[b..], ks)
    ensures ks != [] && 1 <= ks[0] && ks[0] <= Total(ks) && EndLine(s, b + ks[0], b + Total(ks))
    ensures forall x, e :: b < x < b + ks[0] ==> !EndLine(s, x, e)
  {
    hide Matches, PEM_END;
    var q, r := [BODY] + PEM_END, s[b..];
    assert q[1..] == PEM_END;
    var m := ks[0];
    TakesMatches(PEM_END, r[m..], ks[1..]);
    assert r[m..][..Total(ks[1..])] == s[b + m..b + Total(ks)];
    forall x, e | b < x < b + m
      ensures !EndLine(s, x, e)
    {
      if EndLine(s, x, e) {
        EarlierEnd(s, b, ks, x, e);
      }
    }
  }

  lemma EarlierEnd(s: Text, b: nat, ks: Counts, x: int, e: int)
    requires b <= |s| && First([BODY] + PEM_END, s[b..], ks) && b < x && EndLine(s, x, e)
    ensures ks != [] && b + ks[0] <= x
  {
    hide Matches, PEM_END;
    var q, r := [BODY] + PEM_END, s[b..];
    assert q[1..] == PEM_END && r[x - b..][..e - x] == s[x..e];
    var rest := MatchesTakes(PEM_END, r[x - b..], e - x);
    TakesLength(PEM_END, r[x - b..], rest);
    var ms := [x - b] + rest;
    assert ms[1..] == rest;
    EarlierIsBefore(q, r, ks, ms);
  }

  lemma EarlierIsBefore(q: Pattern, r: Text, ks: Counts, ms: Counts)
    requires q != [] && q[0] == BODY && First(q, r, ks) && ms != [] && 1 <= ms[0] <= |r| && |ms| == |q|
    requires Takes(q[1..], r[ms[0]..], ms[1..])
    ensures ks[0] <= ms[0]
  {
    hide Matches;
    assert Takes(q, r, ms);
    if ms != ks {
      assert Before(q, ks, ms);
    }
  }
}
