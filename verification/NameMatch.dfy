/** Greedy token alignment and the composite name score.

  Tokens arrive already normalised; the two phonetic codes are parameters.  The alignment pairs each query
  token with the most similar candidate token nobody has used, the first one on ties. */
module NameMatch {
  import opened Basics
  import opened Selection
  import opened Jaro
  import opened Phonetics

  /** Used candidate positions, as a flag per position: true while the position is free. */
  function Free(c: seq<string>, a: seq<int>): seq<bool> {
    seq(|c|, j requires 0 <= j < |c| => j !in a)
  }

  // ---------- The alignment ----------

  ghost predicate IsBest(x: string, c: seq<string>, a: seq<int>, m: nat, b: int)
    requires m <= |c|
  {
    if b == -1 then forall j :: 0 <= j < m ==> j in a
    else
      && 0 <= b < m && b !in a
      && forall j :: 0 <= j < m && j !in a ==>
           JW(x, c[j]) <= JW(x, c[b]) && (j < b ==> JW(x, c[j]) < JW(x, c[b]))
  }

  /** The best free position among the first m, -1 if none is free. */
  function Best(x: string, c: seq<string>, a: seq<int>, m: nat): (b: int)
    requires m <= |c|
    ensures b == -1 || (0 <= b < m && b !in a)
  {
    hide JW;
    if m == 0 then -1
    else
      var b := Best(x, c, a, m - 1);
      if m - 1 in a then b
      else if b == -1 || JW(x, c[m - 1]) > JW(x, c[b]) then m - 1
      else b
  }

  lemma {:induction false} BestIsBest(x: string, c: seq<string>, a: seq<int>, m: nat)
    requires m <= |c|
    ensures IsBest(x, c, a, m, Best(x, c, a, m))
  {
    hide JW;
    if m > 0 { BestIsBest(x, c, a, m - 1); }
  }

  lemma BestIsUnique(x: string, c: seq<string>, a: seq<int>, m: nat, b: int)
    requires m <= |c| && IsBest(x, c, a, m, b)
    ensures b == Best(x, c, a, m)
  {
    hide JW;
    BestIsBest(x, c, a, m);
    hide Best;
  }

  /** Positions chosen for the first n query tokens. */
  function Align(q: seq<string>, c: seq<string>, n: nat): (a: seq<int>)
    requires n <= |q|
    ensures |a| == n
    decreases n, 0
  {
    if n == 0 then [] else Align(q, c, n - 1) + [Chosen(q, c, n - 1)]
  }

  /** Position chosen for query token i, -1 once the candidate tokens are used up. */
  function Chosen(q: seq<string>, c: seq<string>, i: nat): int
    requires i < |q|
    decreases i, 1
  {
    Best(q[i], c, Align(q, c, i), |c|)
  }

  ghost predicate IsAlignment(q: seq<string>, c: seq<string>, a: seq<int>) {
    |a| > 0 ==>
      && |a| <= |q|
      && IsAlignment(q, c, a[..|a| - 1])
      && IsBest(q[|a| - 1], c, a[..|a| - 1], |c|, a[|a| - 1])
  }

  /** "Best free token, first one on ties" pins the alignment down. */
  lemma {:induction false} AlignmentIsUnique(q: seq<string>, c: seq<string>, a: seq<int>)
    requires |a| <= |q| && IsAlignment(q, c, a)
    ensures a == Align(q, c, |a|)
  {
    hide JW, IsBest;
    if |a| > 0 {
      AlignmentIsUnique(q, c, a[..|a| - 1]);
      BestIsUnique(q[|a| - 1], c, a[..|a| - 1], |c|, a[|a| - 1]);
    }
  }

  /** What is left of c after the positions in a have been used. */
  function Unused(c: seq<string>, a: seq<int>): seq<string> {
    Kept(c, Free(c, a), |c|)
  }

  /** Using a free position takes exactly that token out of what is left. */
  lemma UseOne(c: seq<string>, a: seq<int>, b: int)
    requires 0 <= b < |c| && b !in a
    ensures multiset(Unused(c, a)) == multiset(Unused(c, a + [b])) + multiset{c[b]}
    ensures |Unused(c, a)| == |Unused(c, a + [b])| + 1
  {
    var after := Free(c, a + [b]);
    assert Free(c, a) == after[b := true];
    var u, v := KeptFlagOne(c, after, b, |c|);
    assert u + [c[b]] + v == u + ([c[b]] + v);
  }

  lemma {:induction false} UnusedHas(c: seq<string>, f: seq<bool>, n: nat, x: string) returns (j: nat)
    requires n <= |c| == |f| && x in Kept(c, f, n)
    ensures j < n && f[j] && c[j] == x
  {
    if x in Kept(c, f, n - 1) {
      j := UnusedHas(c, f, n - 1, x);
    } else {
      j := n - 1;
    }
  }

  lemma NothingUsed(c: seq<string>)
    ensures Unused(c, []) == c
  {
    AllFree(c, Free(c, []), |c|);
    assert c[..|c|] == c;
  }

  lemma {:induction false} AllFree(c: seq<string>, f: seq<bool>, n: nat)
    requires n <= |c| == |f| && forall j :: 0 <= j < n ==> f[j]
    ensures Kept(c, f, n) == c[..n]
  {
    if n > 0 {
      AllFree(c, f, n - 1);
      assert c[..n] == c[..n - 1] + [c[n - 1]];
    }
  }

  lemma {:induction false} FreePosition(c: seq<string>, f: seq<bool>, n: nat)
    requires n <= |c| == |f|
    ensures Kept(c, f, n) == [] <==> forall j :: 0 <= j < n ==> !f[j]
  {
    if n > 0 { FreePosition(c, f, n - 1); }
  }

  /** After n query tokens, min(n, |c|) candidate tokens have been used up. */
  lemma {:induction false} UnusedCount(q: seq<string>, c: seq<string>, n: nat)
    requires n <= |q|
    ensures |Unused(c, Align(q, c, n))| == |c| - Min(n, |c|)
  {
    hide JW, Kept;
    if n == 0 {
      NothingUsed(c);
    } else {
      UnusedCount(q, c, n - 1);
      var a, b := Align(q, c, n - 1), Chosen(q, c, n - 1);
      BestIsBest(q[n - 1], c, a, |c|);
      FreePosition(c, Free(c, a), |c|);
      if b != -1 {
        UseOne(c, a, b);
        assert Free(c, a)[b];
      } else {
        assert Free(c, a + [b]) == Free(c, a);
      }
    }
  }

  /** A query token finds a partner exactly while candidate tokens remain, and never one used before:
      the alignment makes min(|q|, |c|) pairs without reusing a candidate token. */
  lemma PartnerWhileAnyLeft(q: seq<string>, c: seq<string>, i: nat)
    requires i < |q|
    ensures Chosen(q, c, i) == -1 <==> i >= |c|
    ensures i < |c| ==> 0 <= Chosen(q, c, i) < |c| && Chosen(q, c, i) !in Align(q, c, i)
  {
    hide JW, Kept;
    UnusedCount(q, c, i);
    BestIsBest(q[i], c, Align(q, c, i), |c|);
    var a := Align(q, c, i);
    FreePosition(c, Free(c, a), |c|);
    assert forall j :: 0 <= j < |c| ==> (Free(c, a)[j] <==> j !in a);
  }

  // ---------- Average similarity of the pairs ----------

  function Pairs(q: seq<string>, c: seq<string>): nat { Min(|q|, |c|) }

  function SumJW(q: seq<string>, c: seq<string>, n: nat): real
    requires n <= Pairs(q, c)
  {
    if n == 0 then 0.0
    else
      PartnerWhileAnyLeft(q, c, n - 1);
      SumJW(q, c, n - 1) + JW(q[n - 1], c[Chosen(q, c, n - 1)])
  }

  function Average(q: seq<string>, c: seq<string>): real
    requires q != [] && c != []
  {
    SumJW(q, c, Pairs(q, c)) / Pairs(q, c) as real
  }

  /** The first n pairs are pairs of equal tokens. */
  ghost predicate AllEqual(q: seq<string>, c: seq<string>, n: nat)
    requires n <= Pairs(q, c)
  {
    n > 0 ==>
      && AllEqual(q, c, n - 1)
      && 0 <= Chosen(q, c, n - 1) < |c|
      && q[n - 1] == c[Chosen(q, c, n - 1)]
  }

  lemma {:induction false} SumRange(q: seq<string>, c: seq<string>, n: nat)
    requires n <= Pairs(q, c)
    ensures 0.0 <= SumJW(q, c, n) <= n as real
    ensures SumJW(q, c, n) == n as real <==> AllEqual(q, c, n)
  {
    hide JW, Best;
    if n > 0 {
      SumRange(q, c, n - 1);
      PartnerWhileAnyLeft(q, c, n - 1);
      JWRange(q[n - 1], c[Chosen(q, c, n - 1)]);
    }
  }

  lemma {:induction false} EqualPairsAreContained(q: seq<string>, c: seq<string>, n: nat)
    requires n <= Pairs(q, c) && AllEqual(q, c, n)
    ensures multiset(c) == multiset(Unused(c, Align(q, c, n))) + multiset(q[..n])
  {
    hide JW, Best, Unused;
    if n == 0 {
      NothingUsed(c);
      assert q[..0] == [];
    } else {
      EqualPairsAreContained(q, c, n - 1);
      UseOne(c, Align(q, c, n - 1), Chosen(q, c, n - 1));
      assert q[..n] == q[..n - 1] + [q[n - 1]];
    }
  }

  lemma {:induction false} ContainedMeansEqualPairs(q: seq<string>, c: seq<string>, n: nat)
    requires n <= Pairs(q, c) && multiset(q[..Pairs(q, c)]) <= multiset(c)
    ensures AllEqual(q, c, n)
  {
    hide JW, Best, Unused;
    if n > 0 {
      ContainedMeansEqualPairs(q, c, n - 1);
      EqualPairsAreContained(q, c, n - 1);
      ExactPartnerLeft(q, c, n);
    }
  }

  lemma ExactPartnerLeft(q: seq<string>, c: seq<string>, n: nat)
    requires 0 < n <= Pairs(q, c) && multiset(q[..Pairs(q, c)]) <= multiset(c)
    requires multiset(c) == multiset(Unused(c, Align(q, c, n - 1))) + multiset(q[..n - 1])
    ensures 0 <= Chosen(q, c, n - 1) < |c| && q[n - 1] == c[Chosen(q, c, n - 1)]
  {
    hide JW, Best;
    var a, x, m := Align(q, c, n - 1), q[n - 1], Pairs(q, c);
    assert x in Unused(c, a) by {
      assert q[..m] == q[..n - 1] + ([x] + q[n..m]);
      assert multiset(q[..m])[x] == multiset(q[..n - 1])[x] + multiset([x] + q[n..m])[x];
      assert ([x] + q[n..m])[0] == x;
      assert multiset(Unused(c, a))[x] > 0;
    }
    var j := UnusedHas(c, Free(c, a), |c|, x);
    var b := Chosen(q, c, n - 1);
    assert j !in a;
    BestIsBest(x, c, a, |c|);
    assert JW(x, c[j]) <= JW(x, c[b]);
    JWRange(x, c[j]);
    JWRange(x, c[b]);
  }

  /** The average is 1 exactly when the query tokens that get a partner form a sub-multiset of the candidate's
      tokens, in any order; when |q| <= |c| those are all the query tokens. */
  lemma AverageRange(q: seq<string>, c: seq<string>)
    requires q != [] && c != []
    ensures 0.0 <= Average(q, c) <= 1.0
    ensures Average(q, c) == 1.0 <==> multiset(q[..Pairs(q, c)]) <= multiset(c)
  {
    var n := Pairs(q, c);
    SumRange(q, c, n);
    RatioInUnit(SumJW(q, c, n), n as real);
    if AllEqual(q, c, n) { EqualPairsAreContained(q, c, n); }
    if multiset(q[..n]) <= multiset(c) { ContainedMeansEqualPairs(q, c, n); }
  }

  // ---------- The composite score ----------

  datatype Match = Match(
    score: real, jaroWinkler: real, phonetic: bool, soundex: bool, metaphone: bool,
    matchedTokens: seq<(string, string)>)

  const NO_MATCH := Match(0.0, 0.0, false, false, false, [])

  /** First token of maximal length. */
  ghost predicate IsLongest(t: seq<string>, i: nat) {
    && i < |t|
    && (forall k :: 0 <= k < |t| ==> |t[k]| <= |t[i]|)
    && (forall k :: 0 <= k < i ==> |t[k]| < |t[i]|)
  }

  function Longest(t: seq<string>): (i: nat)
    requires t != []
    ensures IsLongest(t, i)
  {
    if |t| == 1 then 0
    else
      var i := Longest(t[..|t| - 1]);
      if |t[|t| - 1]| > |t[i]| then |t| - 1 else i
  }

  predicate CodesAgree(code: string -> string, q: seq<string>, c: seq<string>)
    requires q != [] && c != []
  {
    code(q[Longest(q)]) == code(c[Longest(c)]) && code(q[Longest(q)]) != ""
  }

  function Composite(average: real, soundex: bool, metaphone: bool): real {
    var bonus := (if soundex then 0.15 else 0.0) + (if metaphone then 0.15 else 0.0);
    var raw := average * 0.7 + bonus;
    if raw < 1.0 then raw else 1.0
  }

  function NameScore(q: seq<string>, c: seq<string>, soundex: string -> string, metaphone: string -> string): real {
    if q == [] || c == [] then 0.0
    else Composite(Average(q, c), CodesAgree(soundex, q, c), CodesAgree(metaphone, q, c))
  }

  /** The score lies in [0, 1].  It reaches 0.7 whenever the paired query tokens are all contained in the candidate,
      and reaches 1 exactly when, on top of that, both phonetic codes of the longest tokens agree. */
  lemma NameScoreRange(q: seq<string>, c: seq<string>, soundex: string -> string, metaphone: string -> string)
    ensures var s := NameScore(q, c, soundex, metaphone);
      && 0.0 <= s <= 1.0
      && (q == [] || c == [] ==> s == 0.0)
      && (q != [] && c != [] && multiset(q[..Pairs(q, c)]) <= multiset(c) ==> s >= 0.7)
      && (s == 1.0 <==>
            q != [] && c != [] && multiset(q[..Pairs(q, c)]) <= multiset(c)
            && CodesAgree(soundex, q, c) && CodesAgree(metaphone, q, c))
  {
    hide Average;
    if q != [] && c != [] {
      AverageRange(q, c);
    }
  }

  /** A name against itself scores 1 only if the longest token has both codes; a name whose longest token
      has neither (digits only, say) scores exactly 0.7, below the default threshold of 0.85. */
  lemma SelfScore(q: seq<string>, soundex: string -> string, metaphone: string -> string)
    requires q != []
    ensures var x := q[Longest(q)];
      NameScore(q, q, soundex, metaphone)
        == 0.7 + (if soundex(x) != "" then 0.15 else 0.0) + (if metaphone(x) != "" then 0.15 else 0.0)
  {
    hide Average;
    assert q[..Pairs(q, q)] == q;
    AverageRange(q, q);
  }

  /** A name hits itself at the default threshold of 0.85 exactly when its longest token has a letter, and scores 1
      exactly when Metaphone hears one of its letters. */
  lemma SelfHitIff(q: seq<string>, letters: string -> string)
    requires q != []
    ensures var w := letters(q[Longest(q)]);
      var s := NameScore(q, q, t => SoundexCode(letters(t)), t => MetaphoneCode(letters(t)));
      && (s >= 0.85 <==> w != "")
      && (s == 1.0 <==> exists i :: 0 <= i < |Simplified(w)| && !Unheard(Simplified(w), i))
  {
    hide NameScore, MetaphoneCode, Simplified, Unheard;
    var w := letters(q[Longest(q)]);
    SelfScore(q, t => SoundexCode(letters(t)), t => MetaphoneCode(letters(t)));
    MetaphoneShape(w);
    if w == "" { NoLetters(); }
  }

  lemma NoLetters()
    ensures MetaphoneCode("") == ""
  {
  }

  function MatchedTokens(q: seq<string>, c: seq<string>, n: nat): (r: seq<(string, string)>)
    requires n <= Pairs(q, c)
    ensures |r| == n
  {
    if n == 0 then []
    else
      PartnerWhileAnyLeft(q, c, n - 1);
      MatchedTokens(q, c, n - 1) + [(q[n - 1], c[Chosen(q, c, n - 1)])]
  }

  /** The whole result. */
  function MatchOf(q: seq<string>, c: seq<string>, soundex: string -> string, metaphone: string -> string): Match {
    if q == [] || c == [] then NO_MATCH
    else
      var s, m := CodesAgree(soundex, q, c), CodesAgree(metaphone, q, c);
      Match(NameScore(q, c, soundex, metaphone), Average(q, c), s || m, s, m, MatchedTokens(q, c, Pairs(q, c)))
  }

  /** The matched tokens, pair by pair: the query token first, the candidate token second; the candidate tokens used
      and those left over are all of them.  The phonetic flags are about the first longest token of either side. */
  lemma MatchOfMeaning(q: seq<string>, c: seq<string>, soundex: string -> string, metaphone: string -> string, i: nat, j: nat)
    requires IsLongest(q, i) && IsLongest(c, j)
    ensures var m := MatchOf(q, c, soundex, metaphone);
      && |m.matchedTokens| == Min(|q|, |c|)
      && (forall k :: 0 <= k < |m.matchedTokens| ==> m.matchedTokens[k].0 == q[k])
      && multiset(c) == multiset(Unused(c, Align(q, c, Min(|q|, |c|)))) + multiset(Seconds(m.matchedTokens))
      && (m.soundex <==> soundex(q[i]) == soundex(c[j]) && soundex(q[i]) != "")
      && (m.metaphone <==> metaphone(q[i]) == metaphone(c[j]) && metaphone(q[i]) != "")
      && (m.phonetic <==> m.soundex || m.metaphone)
      && m.score == RealMin(1.0, 0.7 * m.jaroWinkler + (if m.soundex then 0.15 else 0.0) + (if m.metaphone then 0.15 else 0.0))
  {
    hide Best, JW, Unused, Average;
    MatchedTokensFit(q, c, Pairs(q, c));
    assert Longest(q) == i && Longest(c) == j;
  }

  function Seconds(pairs: seq<(string, string)>): seq<string> {
    seq(|pairs|, k requires 0 <= k < |pairs| => pairs[k].1)
  }

  /** Without tokens on either side nothing matches. */
  lemma NothingToMatch(q: seq<string>, c: seq<string>, soundex: string -> string, metaphone: string -> string)
    requires q == [] || c == []
    ensures var m := MatchOf(q, c, soundex, metaphone);
      m.score == 0.0 && m.jaroWinkler == 0.0 && !m.phonetic && !m.soundex && !m.metaphone && m.matchedTokens == []
  {
  }

  lemma {:induction false} MatchedTokensFit(q: seq<string>, c: seq<string>, n: nat)
    requires n <= Pairs(q, c)
    ensures var t := MatchedTokens(q, c, n);
      && (forall k :: 0 <= k < n ==> t[k].0 == q[k])
      && multiset(c) == multiset(Unused(c, Align(q, c, n))) + multiset(Seconds(t))
  {
    hide JW, Best, Unused;
    if n == 0 {
      NothingUsed(c);
    } else {
      MatchedTokensFit(q, c, n - 1);
      PartnerWhileAnyLeft(q, c, n - 1);
      UseOne(c, Align(q, c, n - 1), Chosen(q, c, n - 1));
      assert Seconds(MatchedTokens(q, c, n)) == Seconds(MatchedTokens(q, c, n - 1)) + [c[Chosen(q, c, n - 1)]];
    }
  }

  lemma OneTokenAverage(x: string, y: string)
    ensures Average([x], [y]) == JW(x, y)
  {
    hide JW, Chosen, Best;
    FirstChoice(x, y);
    assert SumJW([x], [y], 1) == SumJW([x], [y], 0) + JW(x, y);
  }

  lemma FirstChoice(x: string, y: string)
    ensures Chosen([x], [y], 0) == 0
  {
    hide JW;
    assert Best(x, [y], [], 0) == -1;
  }

  /** Two long single tokens that differ in the last letter only and sound alike. */
  lemma LastLetterScore(u: string, a: char, b: char, soundex: string -> string, metaphone: string -> string)
    requires |u| >= 4 && a != b
    requires soundex(u + [a]) == soundex(u + [b]) != "" && metaphone(u + [a]) == metaphone(u + [b]) != ""
    ensures NameScore([u + [b]], [u + [a]], soundex, metaphone) == 1.0 - 0.28 / (|u| + 1) as real
  {
    hide Average, JW, CodesAgree, Composite, Similarity;
    LastCharacterScore(u, b, a);
    OneTokenAverage(u + [b], u + [a]);
    OneTokenCodes(u + [b], u + [a], soundex);
    OneTokenCodes(u + [b], u + [a], metaphone);
    CompositeOfLong(|u| + 1);
  }

  lemma OneTokenCodes(x: string, y: string, code: string -> string)
    ensures CodesAgree(code, [x], [y]) <==> code(x) == code(y) && code(x) != ""
  {
  }

  lemma CompositeOfLong(n: nat)
    requires n > 0
    ensures Composite(1.0 - 0.4 / n as real, true, true) == 1.0 - 0.28 / n as real
  {
    assert 0.28 / n as real == 0.7 * (0.4 / n as real);
    assert 0.28 / n as real > 0.0;
  }

  /** Inner loop: the candidate token for one query token. */
  method BestCandidate(x: string, c: seq<string>, used: set<int>, ghost a: seq<int>) returns (best: real, bestIndex: int)
    requires forall j :: 0 <= j < |c| ==> (j in used <==> j in a)
    ensures bestIndex == Best(x, c, a, |c|)
    ensures bestIndex >= 0 ==> bestIndex < |c| && best == JW(x, c[bestIndex])
  {
    hide JW;
    best, bestIndex := -1.0, -1;
    for ci := 0 to |c|
      invariant bestIndex == Best(x, c, a, ci)
      invariant if bestIndex == -1 then best == -1.0 else 0 <= bestIndex < ci && best == JW(x, c[bestIndex])
    {
      if ci in used { continue; }
      var jw := JaroWinkler(x, c[ci]);
      assert jw == JW(x, c[ci]);
      JWRange(x, c[ci]);
      if jw > best {
        best, bestIndex := jw, ci;
      }
    }
  }

  method NameMatchScore(q: seq<string>, c: seq<string>, soundex: string -> string, metaphone: string -> string)
    returns (m: Match)
    ensures m == MatchOf(q, c, soundex, metaphone)
  {
    hide JW, Best;
    if q == [] || c == [] { return NO_MATCH; }
    var pairs: seq<(string, string)> := [];
    var total := 0.0;
    var used: set<int> := {};
    for i := 0 to |q|
      invariant |pairs| == Min(i, |c|)
      invariant total == SumJW(q, c, |pairs|)
      invariant pairs == MatchedTokens(q, c, |pairs|)
      invariant forall j :: 0 <= j < |c| ==> (j in used <==> j in Align(q, c, i))
    {
      ghost var a := Align(q, c, i);
      var best, bestIndex := BestCandidate(q[i], c, used, a);
      PartnerWhileAnyLeft(q, c, i);
      if bestIndex >= 0 {
        pairs := pairs + [(q[i], c[bestIndex])];
        total := total + best;
        used := used + {bestIndex};
      }
    }
    assert |pairs| == Pairs(q, c) > 0;
    var average := total / |pairs| as real;
    var qMain, cMain := q[Longest(q)], c[Longest(c)];
    var soundexMatch := soundex(qMain) == soundex(cMain) && soundex(qMain) != "";
    var metaphoneMatch := metaphone(qMain) == metaphone(cMain) && metaphone(qMain) != "";
    m := Match(Composite(average, soundexMatch, metaphoneMatch), average,
               soundexMatch || metaphoneMatch, soundexMatch, metaphoneMatch, pairs);
  }
}
