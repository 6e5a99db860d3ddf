/** Which of the possible matches the engine of module Patterns takes: the one a backtracking
    search meets first. It follows how much of a text each pattern removes. */
module Preference {
  import opened Prelude
  import opened Utf8
  import opened Patterns

  /** How many characters each item of a pattern takes, in order. */
  type Counts = seq<nat>

  /** The items of p can take these counts from the start of s. */
  ghost predicate Takes(p: Pattern, s: Text, ks: Counts)
    decreases |p|
  {
    if p == [] then ks == []
    else ks != [] && ks[0] <= |s| && Repeats(p[0], s[..ks[0]]) && Takes(p[1..], s[ks[0]..], ks[1..])
  }

  function Total(ks: Counts): nat { if ks == [] then 0 else ks[0] + Total(ks[1..]) }

  /** The search meets ks before ms: at the first item where they differ ks takes more, or
      less if the item is lazy. */
  predicate Before(p: Pattern, ks: Counts, ms: Counts)
    requires |ks| == |ms| == |p|
  {
    p != []
    && if ks[0] == ms[0] then Before(p[1..], ks[1..], ms[1..])
       else if p[0].lazy then ks[0] < ms[0] else ks[0] > ms[0]
  }

  ghost predicate First(p: Pattern, s: Text, ks: Counts) {
    Takes(p, s, ks) && |ks| == |p|
    && forall ms: Counts :: Takes(p, s, ms) && |ms| == |p| && ms != ks ==> Before(p, ks, ms)
  }

  lemma {:induction false} TakesLength(p: Pattern, s: Text, ks: Counts)
    requires Takes(p, s, ks)
    ensures |ks| == |p| && Total(ks) <= |s|
  {
    if p != [] {
      TakesLength(p[1..], s[ks[0]..], ks[1..]);
    }
  }

  /** A way of taking is a word of the language. */
  lemma {:induction false} TakesMatches(p: Pattern, s: Text, ks: Counts)
    requires Takes(p, s, ks)
    ensures Total(ks) <= |s| && Matches(p, s[..Total(ks)])
  {
    TakesLength(p, s, ks);
    if p != [] {
      var k := ks[0];
      TakesMatches(p[1..], s[k..], ks[1..]);
      var w := s[..Total(ks)];
      assert w[..k] == s[..k] && w[k..] == s[k..][..Total(ks[1..])];
      assert Splits(p, w, k);
    }
  }

  lemma {:induction false} MatchesTakes(p: Pattern, s: Text, e: nat) returns (ks: Counts)
    requires e <= |s| && Matches(p, s[..e])
    ensures Takes(p, s, ks) && Total(ks) == e
  {
    if p == [] {
      ks := [];
    } else {
      var w := s[..e];
      var k: nat :| Splits(p, w, k);
      assert w[..k] == s[..k] && w[k..] == s[k..][..e - k];
      var rest := MatchesTakes(p[1..], s[k..], e - k);
      ks := [k] + rest;
      assert ks[1..] == rest;
    }
  }

  /** Where the rest of the pattern fails, no way of taking begins with that count. */
  lemma NoneFrom(p: Pattern, s: Text, ms: Counts)
    requires p != [] && Takes(p, s, ms)
    ensures ms[0] <= RunLength(p[0], s, 0) && MatchAt(p[1..], s[ms[0]..]).Some?
  {
    var k := ms[0];
    RunCovers(p[0], s, k, 0);
    TakesMatches(p[1..], s[k..], ms[1..]);
    MatchAtComplete(p[1..], s[k..], Total(ms[1..]));
  }

  /** The match reported is the one met first. */
  lemma {:induction false} FirstTaken(p: Pattern, s: Text) returns (ks: Counts)
    requires MatchAt(p, s).Some?
    ensures First(p, s, ks) && Total(ks) == MatchAt(p, s).value
    decreases |p|
  {
    if p == [] {
      ks := [];
      OnlyEmpty(s);
    } else {
      var most := RunLength(p[0], s, 0);
      var k := if p[0].lazy then UpTo(p, s, p[0].min, most) else DownTo(p, s, most);
      var rest := FirstTaken(p[1..], s[k..]);
      ks := [k] + rest;
      assert ks[1..] == rest;
      TakesRun(p, s, k, rest);
      forall ms: Counts | Takes(p, s, ms) && |ms| == |p| && ms != ks
        ensures Before(p, ks, ms)
      {
        Beats(p, s, k, rest, ms);
      }
    }
  }

  /** With the first item at the count the engine settles on and the rest met first, any other
      way comes later. */
  lemma Beats(p: Pattern, s: Text, k: nat, rest: Counts, ms: Counts)
    requires p != [] && k <= |s| && First(p[1..], s[k..], rest)
    requires MatchAt(p, s).Some? && RunLength(p[0], s, 0) >= p[0].min
    requires k == if p[0].lazy then UpTo(p, s, p[0].min, RunLength(p[0], s, 0)) else DownTo(p, s, RunLength(p[0], s, 0))
    requires Takes(p, s, ms) && |ms| == |p| && ms != [k] + rest
    ensures Before(p, [k] + rest, ms)
  {
    hide MatchAt, RunLength, UpTo, DownTo, Has;
    var ks, most := [k] + rest, RunLength(p[0], s, 0);
    NoneFrom(p, s, ms);
    assert ms == [ms[0]] + ms[1..] && ks[1..] == rest;
    if ms[0] == k {
      assert Takes(p[1..], s[k..], ms[1..]);
    } else {
      Settles(p, s, ms[0]);
    }
  }

  /** Of the counts after which the rest matches, the engine settles on the largest, or for a
      lazy item the smallest. */
  lemma Settles(p: Pattern, s: Text, m: nat)
    requires p != [] && MatchAt(p, s).Some?
    requires p[0].min <= m <= RunLength(p[0], s, 0) && MatchAt(p[1..], s[m..]).Some?
    ensures p[0].lazy ==> UpTo(p, s, p[0].min, RunLength(p[0], s, 0)) <= m
    ensures !p[0].lazy ==> m <= DownTo(p, s, RunLength(p[0], s, 0))
  {
    hide RunLength, UpTo, DownTo;
    var most := RunLength(p[0], s, 0);
    if p[0].lazy {
      LazySkips(p, s, p[0].min, most, m);
    } else {
      GreedySkips(p, s, most, m);
    }
  }

  lemma OnlyEmpty(s: Text)
    ensures First([], s, []) && Total([]) == 0
  {
  }

  lemma TakesRun(p: Pattern, s: Text, k: nat, rest: Counts)
    requires p != [] && p[0].min <= k <= RunLength(p[0], s, 0) && Takes(p[1..], s[k..], rest)
    ensures Takes(p, s, [k] + rest) && |[k] + rest| == |p|
  {
    var most := RunLength(p[0], s, 0);
    assert forall c :: c in s[..k] ==> c in s[..most];
    assert ([k] + rest)[1..] == rest;
    TakesLength(p[1..], s[k..], rest);
  }

  /** The count a greedy item settles on. */
  function DownTo(p: Pattern, s: Text, k: nat): (n: nat)
    requires p != [] && p[0].min <= k <= |s| && TryDown(p, s, k).Some?
    ensures p[0].min <= n <= k && MatchAt(p[1..], s[n..]).Some?
    ensures TryDown(p, s, k).value == n + MatchAt(p[1..], s[n..]).value
  {
    if MatchAt(p[1..], s[k..]).Some? then k else DownTo(p, s, k - 1)
  }

  lemma {:induction false} GreedySkips(p: Pattern, s: Text, k: nat, m: nat)
    requires p != [] && p[0].min <= k <= |s| && TryDown(p, s, k).Some?
    requires p[0].min <= m <= k && MatchAt(p[1..], s[m..]).Some?
    ensures m <= DownTo(p, s, k)
  {
    if m < k && MatchAt(p[1..], s[k..]).None? {
      GreedySkips(p, s, k - 1, m);
    }
  }

  /** The count a lazy item settles on. */
  function UpTo(p: Pattern, s: Text, k: nat, most: nat): (n: nat)
    requires p != [] && k <= most <= |s| && TryUp(p, s, k, most).Some?
    ensures k <= n <= most && MatchAt(p[1..], s[n..]).Some?
    ensures TryUp(p, s, k, most).value == n + MatchAt(p[1..], s[n..]).value
    decreases most - k
  {
    if MatchAt(p[1..], s[k..]).Some? then k else UpTo(p, s, k + 1, most)
  }

  lemma {:induction false} LazySkips(p: Pattern, s: Text, k: nat, most: nat, m: nat)
    requires p != [] && k <= most <= |s| && TryUp(p, s, k, most).Some?
    requires k <= m <= most && MatchAt(p[1..], s[m..]).Some?
    ensures UpTo(p, s, k, most) <= m
    decreases most - k
  {
    if k < m && MatchAt(p[1..], s[k..]).None? {
      LazySkips(p, s, k + 1, most, m);
    }
  }

  lemma {:induction false} BeforeBoth(p: Pattern, ks: Counts, ms: Counts)
    requires |ks| == |ms| == |p| && Before(p, ks, ms)
    ensures !Before(p, ms, ks)
  {
    if ks[0] == ms[0] {
      BeforeBoth(p[1..], ks[1..], ms[1..]);
    }
  }

  /** A match of length e is reported at the start of s exactly when the first way of taking
      that a backtracking search meets (more characters first, or fewer for a lazy item, item
      by item from the left) is e long; and none is reported exactly when there is no way. */
  lemma MatchIsFirst(p: Pattern, s: Text, e: nat)
    ensures MatchAt(p, s) == Some(e) <==> exists ks: Counts :: First(p, s, ks) && Total(ks) == e
    ensures MatchAt(p, s).Some? <==> exists ks: Counts :: Takes(p, s, ks)
  {
    hide Before, MatchAt;
    if ks: Counts :| Takes(p, s, ks) {
      TakesMatches(p, s, ks);
      MatchAtComplete(p, s, Total(ks));
      assert MatchAt(p, s).Some?;
    }
    if MatchAt(p, s).Some? {
      var best := FirstTaken(p, s);
      assert Takes(p, s, best);
      assert exists ks: Counts :: Takes(p, s, ks);
      forall ks: Counts | First(p, s, ks)
        ensures ks == best
      {
        OnlyOneFirst(p, s, ks, best);
      }
    }
  }

  lemma OnlyOneFirst(p: Pattern, s: Text, ks: Counts, ms: Counts)
    requires First(p, s, ks) && First(p, s, ms)
    ensures ks == ms
  {
    hide Before, Takes;
    if ks != ms {
      BeforeBoth(p, ks, ms);
    }
  }

  /** Alternative k matches, and none before it. */
  predicate Decided(re: Redactor, s: Text, e: nat, k: int)
    requires 0 <= k < |re|
  {
    MatchAt(re[k], s) == Some(e) && forall j :: 0 <= j < k ==> MatchAt(re[j], s) == None
  }

  /** Among alternatives the first that matches at all decides. */
  lemma {:induction false} FirstMatchIs(re: Redactor, s: Text, e: nat)
    ensures FirstMatch(re, s) == Some(e) <==> exists k :: 0 <= k < |re| && Decided(re, s, e, k)
  {
    hide MatchAt;
    if re != [] {
      FirstMatchIs(re[1..], s, e);
      if MatchAt(re[0], s).None? {
        var rest := re[1..];
        assert forall j :: 0 <= j < |rest| ==> rest[j] == re[j + 1];
        if k :| 0 <= k < |re| && Decided(re, s, e, k) {
          assert Decided(rest, s, e, k - 1);
        }
        if k :| 0 <= k < |rest| && Decided(rest, s, e, k) {
          forall j | 0 <= j < k + 1
            ensures MatchAt(re[j], s) == None
          {
            assert j > 0 ==> rest[j - 1] == re[j];
          }
          assert Decided(re, s, e, k + 1);
        }
      } else {
        assert Decided(re, s, MatchAt(re[0], s).value, 0);
      }
    }
  }
}
