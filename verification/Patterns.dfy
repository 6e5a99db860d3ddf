/** The regular expressions internal/audit/redact.go is built from. A pattern is a list of
    alternatives, each a list of repeated character classes, matched leftmost-first with
    backtracking as Go's regexp package does, on decoded text. */
module Patterns {
  import opened Prelude
  import opened Utf8

  datatype Class =
    | Lit(c: char)         // the character itself
    | Fold(lower: char)    // a letter in either case
    | OneOf(cs: string)
    | NoneOf(cs: string)
    | UpperDigit           // [0-9A-Z]
    | UpperSpace           // [A-Z ]
    | AlNum(extra: string) // [A-Za-z0-9] and the extra characters

  const SPACES := "\t\n\U{0C}\r "

  /** Case folding is Unicode's: the Kelvin sign is a k and the long s an s. An octet that is not
      valid UTF-8 is read as U+FFFD, which only a negated class takes. */
  predicate Has(k: Class, x: Sym) {
    match x
    case Bad(_) => k.NoneOf?
    case Rune(c) =>
      match k
      case Lit(d) => c == d
      case Fold(d) =>
        c == d || ('A' <= c <= 'Z' && c as int + 32 == d as int)
        || (d == 'k' && c == '\U{212A}') || (d == 's' && c == '\U{17F}')
      case OneOf(cs) => c in cs
      case NoneOf(cs) => c !in cs
      case UpperDigit => '0' <= c <= '9' || 'A' <= c <= 'Z'
      case UpperSpace => c == ' ' || 'A' <= c <= 'Z'
      case AlNum(extra) => '0' <= c <= '9' || 'A' <= c <= 'Z' || 'a' <= c <= 'z' || c in extra
  }

  /** A class repeated at least `min` and, when bounded, at most `max` times. */
  datatype Item = Item(class_: Class, min: nat, max: Option<nat>, lazy: bool)
  type Pattern = seq<Item>
  type Redactor = seq<Pattern>

  function Exactly(k: Class, n: nat): Item { Item(k, n, Some(n), false) }
  function AtLeast(k: Class, n: nat): Item { Item(k, n, None, false) }
  function Optional(k: Class): Item { Item(k, 0, Some(1), false) }

  function Word(w: string): Pattern { seq(|w|, i requires 0 <= i < |w| => Exactly(Lit(w[i]), 1)) }
  function AnyCase(w: string): Pattern { seq(|w|, i requires 0 <= i < |w| => Exactly(Fold(w[i]), 1)) }

  /* ---- The language of a pattern, and the matcher ---- */

  ghost predicate Matches(p: Pattern, w: Text)
    decreases |p|, 1
  {
    if p == [] then w == [] else exists k: nat :: Splits(p, w, k)
  }

  /** The first item takes the first k characters and the rest match the rest. */
  ghost predicate Splits(p: Pattern, w: Text, k: nat)
    requires p != []
    decreases |p|, 0
  {
    k <= |w| && Repeats(p[0], w[..k]) && Matches(p[1..], w[k..])
  }

  predicate Repeats(it: Item, w: Text) {
    it.min <= |w| && (it.max.Some? ==> |w| <= it.max.value) && forall c :: c in w ==> Has(it.class_, c)
  }

  ghost predicate MatchesAny(re: Redactor, w: Text) {
    exists k :: 0 <= k < |re| && Matches(re[k], w)
  }

  /** How many leading characters of s the item can take. */
  function RunLength(it: Item, s: Text, used: nat): (n: nat)
    ensures n <= |s| && forall c :: c in s[..n] ==> Has(it.class_, c)
    ensures it.max.Some? && used <= it.max.value ==> used + n <= it.max.value
    ensures n < |s| ==> !Has(it.class_, s[n]) || (it.max.Some? && it.max.value <= used + n)
  {
    if s == [] || !Has(it.class_, s[0]) || (it.max.Some? && it.max.value <= used) then 0
    else
      var m := RunLength(it, s[1..], used + 1);
      assert s[..1 + m] == [s[0]] + s[1..][..m];
      1 + m
  }

  /** Length of the match the engine reports at the start of s. */
  function MatchAt(p: Pattern, s: Text): (r: Option<nat>)
    ensures r.Some? ==> r.value <= |s|
    decreases |p|, |s| + 1
  {
    if p == [] then Some(0)
    else
      var most := RunLength(p[0], s, 0);
      if most < p[0].min then None
      else if p[0].lazy then TryUp(p, s, p[0].min, most) else TryDown(p, s, most)
  }

  /** Greedy repetition: the longest run first, giving back one character at a time. */
  function TryDown(p: Pattern, s: Text, k: nat): (r: Option<nat>)
    requires p != [] && k <= |s|
    ensures r.Some? ==> r.value <= |s|
    decreases |p|, k
  {
    match MatchAt(p[1..], s[k..])
    case Some(e) => Some(k + e)
    case None => if k > p[0].min then TryDown(p, s, k - 1) else None
  }

  /** Lazy repetition: the shortest run first. */
  function TryUp(p: Pattern, s: Text, k: nat, most: nat): (r: Option<nat>)
    requires p != [] && k <= most <= |s|
    ensures r.Some? ==> r.value <= |s|
    decreases |p|, most - k
  {
    match MatchAt(p[1..], s[k..])
    case Some(e) => Some(k + e)
    case None => if k < most then TryUp(p, s, k + 1, most) else None
  }

  /** Alternatives are tried in order; the match is the first that succeeds. */
  function FirstMatch(re: Redactor, s: Text): (r: Option<nat>)
    ensures r.Some? ==> r.value <= |s|
  {
    if re == [] then None
    else match MatchAt(re[0], s)
      case Some(e) => Some(e)
      case None => FirstMatch(re[1..], s)
  }

  /** The engine misses nothing: if some prefix of s is in the language, it reports a match. */
  lemma {:induction false} MatchAtComplete(p: Pattern, s: Text, e: nat)
    requires e <= |s| && Matches(p, s[..e])
    ensures MatchAt(p, s).Some?
    decreases |p|
  {
    if p != [] {
      var w := s[..e];
      var k: nat :| Splits(p, w, k);
      assert w[..k] == s[..k];
      RunCovers(p[0], s, k, 0);
      assert w[k..] == s[k..][..e - k];
      MatchAtComplete(p[1..], s[k..], e - k);
      var most := RunLength(p[0], s, 0);
      if p[0].lazy {
        TryUpFinds(p, s, p[0].min, most, k);
      } else {
        TryDownFinds(p, s, most, k);
      }
    }
  }

  lemma {:induction false} RunCovers(it: Item, s: Text, k: nat, used: nat)
    requires k <= |s| && (forall c :: c in s[..k] ==> Has(it.class_, c))
    requires it.max.Some? ==> used + k <= it.max.value
    ensures k <= RunLength(it, s, used)
  {
    if k > 0 {
      assert s[0] in s[..k];
      assert s[1..][..k - 1] == s[..k][1..];
      RunCovers(it, s[1..], k - 1, used + 1);
    }
  }

  lemma {:induction false} TryDownFinds(p: Pattern, s: Text, from: nat, k: nat)
    requires p != [] && p[0].min <= k <= from <= |s| && MatchAt(p[1..], s[k..]).Some?
    ensures TryDown(p, s, from).Some?
    decreases from
  {
    if k < from {
      TryDownFinds(p, s, from - 1, k);
    }
  }

  lemma {:induction false} TryUpFinds(p: Pattern, s: Text, from: nat, most: nat, k: nat)
    requires p != [] && from <= k <= most <= |s| && MatchAt(p[1..], s[k..]).Some?
    ensures TryUp(p, s, from, most).Some?
    decreases k - from
  {
    if from < k {
      TryUpFinds(p, s, from + 1, most, k);
    }
  }

  /** And it reports only words of the language. */
  lemma {:induction false} MatchAtSound(p: Pattern, s: Text)
    requires MatchAt(p, s).Some?
    ensures Matches(p, s[..MatchAt(p, s).value])
    decreases |p|, |s| + 1
  {
    if p != [] {
      var most := RunLength(p[0], s, 0);
      if p[0].lazy {
        TryUpSound(p, s, p[0].min, most);
      } else {
        TryDownSound(p, s, most);
      }
    }
  }

  lemma TakeRun(p: Pattern, s: Text, k: nat, e: nat)
    requires p != [] && k + e <= |s|
    requires Repeats(p[0], s[..k]) && Matches(p[1..], s[k..][..e])
    ensures Matches(p, s[..k + e])
  {
    var w := s[..k + e];
    assert w[..k] == s[..k] && w[k..] == s[k..][..e];
    assert Splits(p, w, k);
  }

  lemma {:induction false} TryDownSound(p: Pattern, s: Text, k: nat)
    requires p != [] && p[0].min <= k <= RunLength(p[0], s, 0) && TryDown(p, s, k).Some?
    ensures Matches(p, s[..TryDown(p, s, k).value])
    decreases |p|, k
  {
    var most := RunLength(p[0], s, 0);
    assert forall c :: c in s[..k] ==> c in s[..most];
    match MatchAt(p[1..], s[k..])
    case Some(e) =>
      MatchAtSound(p[1..], s[k..]);
      TakeRun(p, s, k, e);
    case None =>
      TryDownSound(p, s, k - 1);
  }

  lemma {:induction false} TryUpSound(p: Pattern, s: Text, k: nat, most: nat)
    requires p != [] && p[0].min <= k <= most == RunLength(p[0], s, 0) && TryUp(p, s, k, most).Some?
    ensures Matches(p, s[..TryUp(p, s, k, most).value])
    decreases |p|, most - k
  {
    assert forall c :: c in s[..k] ==> c in s[..most];
    match MatchAt(p[1..], s[k..])
    case Some(e) =>
      MatchAtSound(p[1..], s[k..]);
      TakeRun(p, s, k, e);
    case None =>
      TryUpSound(p, s, k + 1, most);
  }

  /* ---- Composing and splitting words ---- */

  lemma {:induction false} MatchConcat(p: Pattern, q: Pattern, u: Text, v: Text)
    requires Matches(p, u) && Matches(q, v)
    ensures Matches(p + q, u + v)
  {
    if p == [] {
      assert p + q == q && u + v == v;
    } else {
      var k: nat :| Splits(p, u, k);
      MatchConcat(p[1..], q, u[k..], v);
      assert (p + q)[1..] == p[1..] + q && (u + v)[k..] == u[k..] + v && (u + v)[..k] == u[..k];
      assert Splits(p + q, u + v, k);
    }
  }

  lemma {:induction false} MatchSplit(p: Pattern, q: Pattern, w: Text) returns (m: nat)
    requires Matches(p + q, w)
    ensures m <= |w| && Matches(p, w[..m]) && Matches(q, w[m..])
  {
    if p == [] {
      assert p + q == q && w[0..] == w;
      m := 0;
    } else {
      assert (p + q)[1..] == p[1..] + q;
      var k: nat :| Splits(p + q, w, k);
      m := MatchSplit(p[1..], q, w[k..]);
      assert w[..k + m][..k] == w[..k] && w[..k + m][k..] == w[k..][..m] && w[k..][m..] == w[k + m..];
      m := k + m;
      assert Splits(p, w[..m], k);
    }
  }

  lemma MatchOne(it: Item, w: Text)
    ensures Matches([it], w) <==> Repeats(it, w)
  {
    var p := [it];
    assert p[1..] == [];
    assert w[..|w|] == w && w[|w|..] == [];
    assert Repeats(it, w) ==> Splits(p, w, |w|);
    forall k: nat | Splits(p, w, k)
      ensures k == |w|
    {
      assert Matches(p[1..], w[k..]) && w[k..] == [];
    }
  }

  lemma {:induction false} NeedsChar(p: Pattern, i: nat, w: Text)
    requires Matches(p, w) && i < |p| && p[i].min > 0
    ensures exists n :: 0 <= n < |w| && Has(p[i].class_, w[n])
  {
    var k: nat :| Splits(p, w, k);
    if i == 0 {
      assert w[..k][0] in w[..k] && w[..k][0] == w[0];
    } else {
      NeedsChar(p[1..], i - 1, w[k..]);
      var n :| 0 <= n < |w[k..]| && Has(p[i].class_, w[k..][n]);
      assert Has(p[i].class_, w[n + k]);
    }
  }

  /* ---- Facts about a pattern that can be read off its text ---- */

  const OPEN := Rune('[')
  const CLOSE := Rune(']')

  predicate NoBrackets(p: Pattern) {
    forall i :: 0 <= i < |p| ==> !Has(p[i].class_, OPEN) && !Has(p[i].class_, CLOSE)
  }

  function MinLength(p: Pattern): nat {
    if p == [] then 0 else p[0].min + MinLength(p[1..])
  }

  lemma {:induction false} WordsOf(p: Pattern, w: Text)
    requires Matches(p, w)
    ensures |w| >= MinLength(p)
    ensures NoBrackets(p) ==> OPEN !in w && CLOSE !in w
  {
    if p != [] {
      var k: nat :| Splits(p, w, k);
      WordsOf(p[1..], w[k..]);
      assert w == w[..k] + w[k..];
      if NoBrackets(p) {
        assert !Has(p[0].class_, OPEN) && !Has(p[0].class_, CLOSE);
        forall i | 0 <= i < |p[1..]|
          ensures !Has(p[1..][i].class_, OPEN) && !Has(p[1..][i].class_, CLOSE)
        {
          assert p[1..][i] == p[i + 1];
        }
      }
    }
  }

  lemma {:induction false} FirstMatchComplete(re: Redactor, s: Text, e: nat)
    requires e <= |s| && MatchesAny(re, s[..e])
    ensures FirstMatch(re, s).Some?
  {
    var k :| 0 <= k < |re| && Matches(re[k], s[..e]);
    if k == 0 {
      MatchAtComplete(re[0], s, e);
    } else {
      assert Matches(re[1..][k - 1], s[..e]);
      FirstMatchComplete(re[1..], s, e);
    }
  }

  lemma {:induction false} FirstMatchSound(re: Redactor, s: Text)
    requires FirstMatch(re, s).Some?
    ensures MatchesAny(re, s[..FirstMatch(re, s).value])
  {
    if MatchAt(re[0], s).Some? {
      MatchAtSound(re[0], s);
    } else {
      FirstMatchSound(re[1..], s);
      var w := s[..FirstMatch(re[1..], s).value];
      var k :| 0 <= k < |re[1..]| && Matches(re[1..][k], w);
      assert Matches(re[k + 1], w);
    }
  }
}
