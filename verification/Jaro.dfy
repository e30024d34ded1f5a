/** Jaro and Jaro-Winkler similarity.

  The two methods use loops over flag arrays.  They are proved against a
  declarative account: a greedy matching in which every character of the first string takes the
  first compatible, still free position of the second, and the similarity computed from it. */
module Jaro {
  import opened Basics
  import opened Selection

  /** How far apart two matching characters may stand; -1 when both strings have at most one character. */
  function MatchDistance(s1: string, s2: string): int {
    Max(|s1|, |s2|) / 2 - 1
  }

  predicate Compatible(s1: string, s2: string, i: int, j: int) {
    && 0 <= i < |s1| && 0 <= j < |s2|
    && s1[i] == s2[j]
    && i - MatchDistance(s1, s2) <= j <= i + MatchDistance(s1, s2)
  }

  // ---------- The greedy matching ----------

  predicate Taken(p: seq<int>, n: nat, j: int)
    requires n <= |p|
  {
    exists k :: 0 <= k < n && p[k] == j
  }

  /** p[k] is the position of s2 matched to character k of s1, or -1. */
  ghost predicate Greedy(s1: string, s2: string, p: seq<int>) {
    && |p| <= |s1|
    && forall k :: 0 <= k < |p| ==> GreedyChoice(s1, s2, p, k, p[k])
  }

  ghost predicate GreedyChoice(s1: string, s2: string, p: seq<int>, k: nat, choice: int)
    requires k <= |p|
  {
    if choice == -1 then
      forall j :: Compatible(s1, s2, k, j) ==> Taken(p, k, j)
    else
      && Compatible(s1, s2, k, choice) && !Taken(p, k, choice)
      && forall j :: Compatible(s1, s2, k, j) && j < choice ==> Taken(p, k, j)
  }

  lemma TakenIsLocal(p: seq<int>, q: seq<int>, n: nat)
    requires n <= |p| && n <= |q| && forall i :: 0 <= i < n ==> p[i] == q[i]
    ensures forall k, j :: 0 <= k <= n ==> (Taken(p, k, j) <==> Taken(q, k, j))
  {
  }

  /** The greedy matching is fully determined by the two strings. */
  lemma {:induction false} GreedyIsUnique(s1: string, s2: string, p: seq<int>, q: seq<int>)
    requires Greedy(s1, s2, p) && Greedy(s1, s2, q) && |p| == |q|
    ensures p == q
  {
    if |p| > 0 {
      var n := |p| - 1;
      var p', q' := p[..n], q[..n];
      TakenIsLocal(p', p, n);
      TakenIsLocal(q', q, n);
      assert Greedy(s1, s2, p') by {
        forall k | 0 <= k < n ensures GreedyChoice(s1, s2, p', k, p'[k]) {
          assert GreedyChoice(s1, s2, p, k, p[k]);
        }
      }
      assert Greedy(s1, s2, q') by {
        forall k | 0 <= k < n ensures GreedyChoice(s1, s2, q', k, q'[k]) {
          assert GreedyChoice(s1, s2, q, k, q[k]);
        }
      }
      GreedyIsUnique(s1, s2, p', q');
      TakenIsLocal(p, q, n);
      assert GreedyChoice(s1, s2, p, n, p[n]) && GreedyChoice(s1, s2, q, n, q[n]);
      assert p[n] == q[n];
      assert p == p' + [p[n]] && q == q' + [q[n]];
    }
  }

  /** First position at or after j that character k can take, or -1. */
  function FirstFree(s1: string, s2: string, p: seq<int>, j: nat): (r: int)
    requires |p| < |s1| && j <= |s2|
    requires forall i :: 0 <= i < j && Compatible(s1, s2, |p|, i) ==> Taken(p, |p|, i)
    ensures GreedyChoice(s1, s2, p, |p|, r)
    decreases |s2| - j
  {
    if j == |s2| then -1
    else if Compatible(s1, s2, |p|, j) && !Taken(p, |p|, j) then j
    else FirstFree(s1, s2, p, j + 1)
  }

  function Matching(s1: string, s2: string, n: nat): (p: seq<int>)
    requires n <= |s1|
    ensures |p| == n && Greedy(s1, s2, p)
  {
    if n == 0 then []
    else
      var p := Matching(s1, s2, n - 1);
      var q := p + [FirstFree(s1, s2, p, 0)];
      assert Greedy(s1, s2, q) by { GreedyExtends(s1, s2, p, FirstFree(s1, s2, p, 0)); }
      q
  }

  lemma GreedyExtends(s1: string, s2: string, p: seq<int>, c: int)
    requires Greedy(s1, s2, p) && |p| < |s1| && GreedyChoice(s1, s2, p, |p|, c)
    ensures Greedy(s1, s2, p + [c])
  {
    var q := p + [c];
    TakenIsLocal(p, q, |p|);
    forall k | 0 <= k < |q| ensures GreedyChoice(s1, s2, q, k, q[k]) {
      assert k < |p| ==> GreedyChoice(s1, s2, p, k, p[k]);
    }
  }

  function Flags1(s1: string, p: seq<int>): (f: seq<bool>)
    requires |p| <= |s1|
  {
    seq(|s1|, k requires 0 <= k < |s1| => k < |p| && p[k] >= 0)
  }

  function Flags2(s2: string, p: seq<int>): seq<bool> {
    seq(|s2|, j requires 0 <= j < |s2| => Taken(p, |p|, j))
  }

  // ---------- Flagged characters, in order ----------

  function Mismatches(a: string, b: string): (t: nat)
    requires |a| == |b|
    ensures t <= |a|
  {
    if |a| == 0 then 0
    else Mismatches(a[..|a| - 1], b[..|b| - 1]) + (if a[|a| - 1] != b[|b| - 1] then 1 else 0)
  }

  function Kept1(s1: string, p: seq<int>): string
    requires |p| <= |s1|
  {
    Kept(s1, Flags1(s1, p), |s1|)
  }

  function Kept2(s2: string, p: seq<int>): string {
    Kept(s2, Flags2(s2, p), |s2|)
  }

  /** Character |p| of s1 is matched to a position of s2 nobody has taken, or stays unmatched (-1). */
  predicate FreshMatch(s1: string, s2: string, p: seq<int>, c: int) {
    && |p| < |s1|
    && (c == -1 || (0 <= c < |s2| && s1[|p|] == s2[c] && !Taken(p, |p|, c)))
  }

  lemma FlagsStep(s1: string, s2: string, p: seq<int>, c: int)
    requires FreshMatch(s1, s2, p, c)
    ensures c == -1 ==> Flags1(s1, p + [c]) == Flags1(s1, p) && Flags2(s2, p + [c]) == Flags2(s2, p)
    ensures c != -1 ==>
      && Flags1(s1, p + [c]) == Flags1(s1, p)[|p| := true] && !Flags1(s1, p)[|p|]
      && Flags2(s2, p + [c]) == Flags2(s2, p)[c := true] && !Flags2(s2, p)[c]
  {
    var q := p + [c];
    forall j ensures Taken(q, |q|, j) <==> Taken(p, |p|, j) || j == c {
      if j == c { assert q[|p|] == j; }
      if Taken(p, |p|, j) {
        var k :| 0 <= k < |p| && p[k] == j;
        assert q[k] == j;
      }
    }
  }

  lemma KeptStep(s1: string, s2: string, p: seq<int>, c: int)
    requires FreshMatch(s1, s2, p, c)
    ensures c == -1 ==> Kept1(s1, p + [c]) == Kept1(s1, p) && Kept2(s2, p + [c]) == Kept2(s2, p)
    ensures c != -1 ==>
      && multiset(Kept1(s1, p + [c])) == multiset(Kept1(s1, p)) + multiset{s2[c]}
      && multiset(Kept2(s2, p + [c])) == multiset(Kept2(s2, p)) + multiset{s2[c]}
      && |Kept1(s1, p + [c])| == |Kept1(s1, p)| + 1
  {
    FlagsStep(s1, s2, p, c);
    if c != -1 {
      var a1, b1 := KeptFlagOne(s1, Flags1(s1, p), |p|, |s1|);
      var a2, b2 := KeptFlagOne(s2, Flags2(s2, p), c, |s2|);
    }
  }

  /** Both sides keep the same characters, counted with multiplicity: equal match counts on both strings. */
  lemma {:induction false} MatchedMultisetsAgree(s1: string, s2: string, n: nat)
    requires n <= |s1|
    ensures multiset(Kept1(s1, Matching(s1, s2, n))) == multiset(Kept2(s2, Matching(s1, s2, n)))
  {
    if n == 0 {
      KeptNone(s1, Flags1(s1, []), |s1|);
      KeptNone(s2, Flags2(s2, []), |s2|);
    } else {
      MatchedMultisetsAgree(s1, s2, n - 1);
      MatchingStep(s1, s2, n);
    }
  }

  lemma MatchingStep(s1: string, s2: string, n: nat)
    requires 0 < n <= |s1|
    ensures var p, q := Matching(s1, s2, n - 1), Matching(s1, s2, n);
      q == p + [q[n - 1]]
      && (q[n - 1] == -1 ==> Kept1(s1, q) == Kept1(s1, p) && Kept2(s2, q) == Kept2(s2, p))
      && (q[n - 1] != -1 ==> exists c :: multiset(Kept1(s1, q)) == multiset(Kept1(s1, p)) + multiset{c}
                                      && multiset(Kept2(s2, q)) == multiset(Kept2(s2, p)) + multiset{c})
  {
    var p, q := Matching(s1, s2, n - 1), Matching(s1, s2, n);
    KeptStep(s1, s2, p, q[n - 1]);
  }

  // ---------- The similarity ----------

  function Matched1(s1: string, s2: string): string {
    Kept1(s1, Matching(s1, s2, |s1|))
  }

  function Matched2(s1: string, s2: string): (r: string)
    ensures multiset(r) == multiset(Matched1(s1, s2)) && |r| == |Matched1(s1, s2)|
  {
    MatchedMultisetsAgree(s1, s2, |s1|);
    var r := Kept2(s2, Matching(s1, s2, |s1|));
    assert |multiset(r)| == |r| && |multiset(Matched1(s1, s2))| == |Matched1(s1, s2)|;
    r
  }

  function Score(m: nat, n1: nat, n2: nat, transpositions: nat): real
    requires m > 0 && n1 > 0 && n2 > 0
  {
    (m as real / n1 as real + m as real / n2 as real + (m - transpositions) as real / m as real) / 3.0
  }

  function Similarity(s1: string, s2: string): real {
    if s1 == s2 then 1.0
    else
      var a, b := Matched1(s1, s2), Matched2(s1, s2);
      if a == "" then 0.0 else Score(|a|, |s1|, |s2|, Mismatches(a, b) / 2)
  }

  /** Replacing one character by another changes the multiset. */
  lemma ReplaceCounts(b: string, i: nat, c: char)
    requires i < |b|
    ensures multiset(b[i := c]) == multiset(b) <==> c == b[i]
  {
    if c != b[i] {
      assert multiset(b[i := c])[c] == (multiset(b) - multiset{b[i]} + multiset{c})[c];
    } else {
      assert b[i := c] == b;
    }
  }

  /** A single mismatch between two arrangements of the same characters is impossible. */
  lemma {:induction false} OneMismatchMeansNone(a: string, b: string)
    requires |a| == |b| && multiset(a) == multiset(b) && Mismatches(a, b) <= 1
    ensures a == b
  {
    var i := DifferAtMostAt(a, b);
    if |a| > 0 {
      assert a == b[i := a[i]];
      ReplaceCounts(b, i, a[i]);
    }
  }

  lemma {:induction false} DifferAtMostAt(a: string, b: string) returns (i: nat)
    requires |a| == |b| && Mismatches(a, b) <= 1
    ensures |a| > 0 ==> i < |a| && forall k :: 0 <= k < |a| && k != i ==> a[k] == b[k]
    ensures Mismatches(a, b) == 0 ==> a == b
  {
    i := 0;
    if |a| > 0 {
      var n := |a| - 1;
      i := DifferAtMostAt(a[..n], b[..n]);
      assert forall k :: 0 <= k < n ==> a[..n][k] == a[k] && b[..n][k] == b[k];
      if a[n] != b[n] || n == 0 { i := n; }
    }
  }

  lemma ScoreRange(m: nat, n1: nat, n2: nat, t: nat)
    requires 0 < m <= n1 && m <= n2 && t <= m
    ensures 0.0 <= Score(m, n1, n2, t) <= 1.0
    ensures Score(m, n1, n2, t) == 1.0 <==> m == n1 && m == n2 && t == 0
  {
    RatioInUnit(m as real, n1 as real);
    RatioInUnit(m as real, n2 as real);
    RatioInUnit((m - t) as real, m as real);
  }

  /** The matched characters fit into their strings, and fill them only by being all of them. */
  lemma MatchedFit(s1: string, s2: string)
    ensures |Matched1(s1, s2)| <= |s1| && |Matched2(s1, s2)| <= |s2|
    ensures |Matched1(s1, s2)| == |s1| ==> Matched1(s1, s2) == s1
    ensures |Matched2(s1, s2)| == |s2| ==> Matched2(s1, s2) == s2
  {
    var p := Matching(s1, s2, |s1|);
    if |Matched1(s1, s2)| == |s1| {
      KeptAll(s1, Flags1(s1, p), |s1|);
      assert s1[..|s1|] == s1;
    }
    if |Matched2(s1, s2)| == |s2| {
      KeptAll(s2, Flags2(s2, p), |s2|);
      assert s2[..|s2|] == s2;
    }
  }

  /** The similarity lies in [0, 1], and is 1 exactly for equal strings. */
  lemma SimilarityRange(s1: string, s2: string)
    ensures 0.0 <= Similarity(s1, s2) <= 1.0
    ensures Similarity(s1, s2) == 1.0 <==> s1 == s2
  {
    hide Matched1, Matched2, Score, Mismatches;
    var a, b := Matched1(s1, s2), Matched2(s1, s2);
    if s1 != s2 && a != "" {
      MatchedFit(s1, s2);
      ScoreRange(|a|, |s1|, |s2|, Mismatches(a, b) / 2);
      if Mismatches(a, b) <= 1 { OneMismatchMeansNone(a, b); }
    }
  }

  /** Nothing is left over: an unmatched character has no compatible position that is still free,
      the matching uses no position twice, and every match stays within the window. */
  lemma MatchingIsMaximal(s1: string, s2: string, i: nat, j: nat)
    requires i < |s1| && j < |s2|
    ensures var p := Matching(s1, s2, |s1|);
      && (Compatible(s1, s2, i, j) ==> Flags1(s1, p)[i] || Flags2(s2, p)[j])
      && (p[i] != -1 ==> Compatible(s1, s2, i, p[i]))
      && (forall k :: 0 <= k < |s1| && k != i && p[k] == p[i] ==> p[i] == -1)
  {
  }

  /** Outer loop of the matcher: flags the characters that find a partner and counts them. */
  method MarkMatches(s1: string, s2: string, flags1: array<bool>, flags2: array<bool>) returns (matches: nat)
    requires flags1 != flags2 && flags1.Length == |s1| && flags2.Length == |s2|
    requires flags1[..] == Flags1(s1, []) && flags2[..] == Flags2(s2, [])
    modifies flags1, flags2
    ensures flags1[..] == Flags1(s1, Matching(s1, s2, |s1|))
    ensures flags2[..] == Flags2(s2, Matching(s1, s2, |s1|))
    ensures matches == |Matched1(s1, s2)|
  {
    matches := 0;
    var i := 0;
    ghost var p: seq<int> := [];
    KeptNone(s1, Flags1(s1, p), |s1|);
    while i < |s1|
      invariant 0 <= i <= |s1| && p == Matching(s1, s2, i)
      invariant flags1[..] == Flags1(s1, p) && flags2[..] == Flags2(s2, p)
      invariant matches == |Kept1(s1, p)|
    {
      ghost var choice := FirstFree(s1, s2, p, 0);
      assert Matching(s1, s2, i + 1) == p + [choice];
      var found := MarkOne(s1, s2, i, p, choice, flags1, flags2);
      KeptStep(s1, s2, p, choice);
      if found { matches := matches + 1; }
      p := p + [choice];
      i := i + 1;
    }
  }

  /** Inner loop: character i takes the first free equal character of its window, if there is one. */
  method MarkOne(s1: string, s2: string, i: nat, ghost p: seq<int>, ghost choice: int,
                 flags1: array<bool>, flags2: array<bool>)
    returns (found: bool)
    requires flags1 != flags2 && flags1.Length == |s1| && flags2.Length == |s2|
    requires i == |p| < |s1| && GreedyChoice(s1, s2, p, i, choice)
    requires flags1[..] == Flags1(s1, p) && flags2[..] == Flags2(s2, p)
    modifies flags1, flags2
    ensures found <==> choice != -1
    ensures flags1[..] == Flags1(s1, p + [choice]) && flags2[..] == Flags2(s2, p + [choice])
  {
    var distance := MatchDistance(s1, s2);
    var j := Max(0, i - distance);
    var end := Min(i + distance + 1, |s2|);
    FlagsStep(s1, s2, p, choice);
    while j < end
      invariant 0 <= j
      invariant forall k :: 0 <= k < j && Compatible(s1, s2, i, k) ==> Taken(p, i, k)
    {
      assert flags2[j] == flags2[..][j] == Taken(p, i, j);
      if flags2[j] || s2[j] != s1[i] {
        j := j + 1;
        continue;
      }
      assert Compatible(s1, s2, i, j) && choice == j;
      flags1[i] := true;
      flags2[j] := true;
      assert flags1[..] == Flags1(s1, p)[i := true] && flags2[..] == Flags2(s2, p)[j := true];
      return true;
    }
    assert choice == -1;
    return false;
  }

  /** The scan over the flagged characters.  The read position on the second string never runs off its
      end, because both strings hold equally many flags. */
  method CountTranspositions(s1: string, s2: string, flags1: array<bool>, flags2: array<bool>) returns (t: nat)
    requires flags1.Length == |s1| && flags2.Length == |s2|
    requires |Kept(s1, flags1[..], |s1|)| == |Kept(s2, flags2[..], |s2|)|
    ensures t == Mismatches(Kept(s1, flags1[..], |s1|), Kept(s2, flags2[..], |s2|))
  {
    ghost var f1, f2 := flags1[..], flags2[..];
    var k, i := 0, 0;
    t := 0;
    while i < |s1|
      invariant 0 <= i <= |s1| && 0 <= k <= |s2|
      invariant |Kept(s1, f1, i)| == |Kept(s2, f2, k)|
      invariant t == Mismatches(Kept(s1, f1, i), Kept(s2, f2, k))
    {
      if !flags1[i] {
        assert Kept(s1, f1, i + 1) == Kept(s1, f1, i);
        i := i + 1;
        continue;
      }
      KeptGrows(s1, f1, i + 1, |s1|);
      ghost var a, b := Kept(s1, f1, i), Kept(s2, f2, k);
      while !flags2[k]
        invariant k < |s2| && Kept(s2, f2, k) == b
        decreases |s2| - k
      {
        assert Kept(s2, f2, k + 1) == b;
        k := k + 1;
      }
      assert Kept(s1, f1, i + 1) == a + [s1[i]] && Kept(s2, f2, k + 1) == b + [s2[k]];
      assert (a + [s1[i]])[..|a|] == a && (b + [s2[k]])[..|b|] == b;
      if s1[i] != s2[k] {
        t := t + 1;
      }
      k := k + 1;
      i := i + 1;
    }
    if k < |s2| { KeptGrows(s2, f2, k, |s2|); }
    KeptTail(s2, f2, k, |s2|);
  }

  method JaroSimilarity(s1: string, s2: string) returns (r: real)
    ensures r == Similarity(s1, s2)
  {
    if s1 == s2 { return 1.0; }
    if s1 == "" || s2 == "" { return 0.0; }
    var flags1 := new bool[|s1|](_ => false);
    var flags2 := new bool[|s2|](_ => false);
    assert flags1[..] == Flags1(s1, []) && flags2[..] == Flags2(s2, []);
    var matches := MarkMatches(s1, s2, flags1, flags2);
    assert |Matched2(s1, s2)| == |Matched1(s1, s2)|;
    if matches == 0 { return 0.0; }
    var transpositions := CountTranspositions(s1, s2, flags1, flags2);
    r := Score(matches, |s1|, |s2|, transpositions / 2);
  }

  // ---------- Winkler's prefix bonus ----------

  /** Length of the common prefix, counted up to 4. */
  ghost predicate IsPrefixBonus(s1: string, s2: string, n: nat) {
    && n <= Min(4, Min(|s1|, |s2|))
    && s1[..n] == s2[..n]
    && (n < Min(4, Min(|s1|, |s2|)) ==> s1[n] != s2[n])
  }

  function PrefixBonus(s1: string, s2: string, n: nat): (r: nat)
    requires n <= Min(4, Min(|s1|, |s2|)) && s1[..n] == s2[..n]
    ensures IsPrefixBonus(s1, s2, r)
    decreases 4 - n
  {
    if n < Min(4, Min(|s1|, |s2|)) && s1[n] == s2[n] then
      assert s1[..n + 1] == s1[..n] + [s1[n]] && s2[..n + 1] == s2[..n] + [s2[n]];
      PrefixBonus(s1, s2, n + 1)
    else n
  }

  lemma PrefixBonusIsUnique(s1: string, s2: string, m: nat, n: nat)
    requires IsPrefixBonus(s1, s2, m) && IsPrefixBonus(s1, s2, n)
    ensures m == n
  {
  }

  function Weight(s1: string, s2: string, scale: real): real {
    PrefixBonus(s1, s2, 0) as real * scale
  }

  /** j moved towards 1 by the share w of what is missing. */
  function Lift(j: real, w: real): real { j + w * (1.0 - j) }

  lemma LiftRange(j: real, w: real)
    requires 0.0 <= j <= 1.0 && 0.0 <= w <= 1.0
    ensures j <= Lift(j, w) <= 1.0
    ensures Lift(j, w) == 1.0 <==> j == 1.0 || w == 1.0
  {
    ProductSign(w, 1.0 - j);
    ProductSign(1.0 - w, 1.0 - j);
    assert 1.0 - Lift(j, w) == (1.0 - w) * (1.0 - j);
  }

  function Winkler(s1: string, s2: string, scale: real): real {
    Lift(Similarity(s1, s2), Weight(s1, s2, scale))
  }

  /** For every prefix scale up to 1/4 the bonus keeps the score in [0, 1] and never lowers it.  The score
      is 1 exactly when the strings are equal or the prefix alone already pays the whole distance. */
  lemma WinklerRange(s1: string, s2: string, scale: real)
    requires 0.0 <= scale <= 0.25
    ensures 0.0 <= Similarity(s1, s2) <= Winkler(s1, s2, scale) <= 1.0
    ensures Winkler(s1, s2, scale) == 1.0 <==> s1 == s2 || Weight(s1, s2, scale) == 1.0
  {
    hide Similarity, Weight, Lift;
    SimilarityRange(s1, s2);
    WeightRange(s1, s2, scale);
    LiftRange(Similarity(s1, s2), Weight(s1, s2, scale));
  }

  lemma WeightRange(s1: string, s2: string, scale: real)
    requires 0.0 <= scale <= 0.25
    ensures 0.0 <= Weight(s1, s2, scale) <= 4.0 * scale
  {
    var w := PrefixBonus(s1, s2, 0);
    assert w == 0 || w == 1 || w == 2 || w == 3 || w == 4;
  }

  const DEFAULT_PREFIX_SCALE := 0.1

  function JW(s1: string, s2: string): real { Winkler(s1, s2, DEFAULT_PREFIX_SCALE) }

  /** With the default scale, Jaro-Winkler is 1 exactly for equal strings. */
  lemma JWRange(s1: string, s2: string)
    ensures 0.0 <= JW(s1, s2) <= 1.0
    ensures JW(s1, s2) == 1.0 <==> s1 == s2
  {
    hide Similarity;
    WinklerRange(s1, s2, DEFAULT_PREFIX_SCALE);
    WeightRange(s1, s2, DEFAULT_PREFIX_SCALE);
  }

  method JaroWinkler(s1: string, s2: string, scale: real := DEFAULT_PREFIX_SCALE) returns (r: real)
    ensures r == Winkler(s1, s2, scale)
    ensures scale == DEFAULT_PREFIX_SCALE ==> r == JW(s1, s2)
  {
    hide Similarity;
    var j := JaroSimilarity(s1, s2);
    var n := 0;
    while n < |s1| && n < |s2|
      invariant 0 <= n <= Min(4, Min(|s1|, |s2|)) && n < 4
      invariant s1[..n] == s2[..n]
      decreases |s1| - n
    {
      if s1[n] != s2[n] { break; }
      assert s1[..n + 1] == s1[..n] + [s1[n]] && s2[..n + 1] == s2[..n] + [s2[n]];
      n := n + 1;
      if n == 4 { break; }
    }
    PrefixBonusIsUnique(s1, s2, n, PrefixBonus(s1, s2, 0));
    return j + n as real * scale * (1.0 - j);
  }

  // ---------- Two strings that differ in their last character ----------

  /** Every character but the last is matched to its own position. */
  function InPlace(n: nat): (p: seq<int>)
    ensures |p| == n + 1 && p[n] == -1 && forall k :: 0 <= k < n ==> p[k] == k
  {
    seq(n, k => k) + [-1]
  }

  lemma InPlaceChoice(s1: string, s2: string, n: nat, k: nat)
    requires |s1| == |s2| == n + 1 && 0 < n && k <= n && s1[..n] == s2[..n] && s1[n] != s2[n]
    ensures GreedyChoice(s1, s2, InPlace(n), k, InPlace(n)[k])
  {
    var p := InPlace(n);
    forall j | 0 <= j < k ensures Taken(p, k, j) { assert p[j] == j; }
    if k < n {
      assert s1[k] == s1[..n][k] && s2[k] == s2[..n][k];
      assert Compatible(s1, s2, k, k);
    }
  }

  lemma {:induction false} InPlaceIsMatching(u: string, a: char, b: char)
    requires u != "" && a != b
    ensures Matching(u + [a], u + [b], |u| + 1) == InPlace(|u|)
  {
    var s1, s2, n := u + [a], u + [b], |u|;
    var p := InPlace(n);
    hide GreedyChoice, Matching;
    forall k | 0 <= k <= n ensures GreedyChoice(s1, s2, p, k, p[k]) { InPlaceChoice(s1, s2, n, k); }
    GreedyIsUnique(s1, s2, p, Matching(s1, s2, n + 1));
  }

  lemma {:induction false} KeptPrefix(s: string, f: seq<bool>, m: nat, n: nat)
    requires m <= n <= |s| == |f| && forall k :: 0 <= k < n ==> (f[k] <==> k < m)
    ensures Kept(s, f, n) == s[..m]
  {
    if n > 0 {
      KeptPrefix(s, f, Min(m, n - 1), n - 1);
      if m == n { assert s[..m] == s[..n - 1] + [s[n - 1]]; }
    }
  }

  lemma MatchedInPlace(u: string, a: char, b: char)
    requires u != "" && a != b
    ensures Matched1(u + [a], u + [b]) == u && Matched2(u + [a], u + [b]) == u
  {
    var s1, s2, n := u + [a], u + [b], |u|;
    InPlaceIsMatching(u, a, b);
    var p := InPlace(n);
    KeptPrefix(s1, Flags1(s1, p), n, n + 1);
    forall k | 0 <= k < n + 1 ensures Flags2(s2, p)[k] <==> k < n {
      if k < n { assert p[k] == k; }
    }
    KeptPrefix(s2, Flags2(s2, p), n, n + 1);
    assert s1[..n] == u && s2[..n] == u;
  }

  lemma {:induction false} NoMismatches(a: string)
    ensures Mismatches(a, a) == 0
  {
    if a != "" { NoMismatches(a[..|a| - 1]); }
  }

  /** Replacing the last of n characters costs 2/(3n) of the similarity and, past the fourth, 0.4/n of the score. */
  lemma LastCharacterScore(u: string, a: char, b: char)
    requires |u| >= 4 && a != b
    ensures var n := (|u| + 1) as real;
      Similarity(u + [a], u + [b]) == 1.0 - 2.0 / (3.0 * n) && JW(u + [a], u + [b]) == 1.0 - 0.4 / n
  {
    hide Matched1, Matched2, Mismatches, Matching;
    var s1, s2 := u + [a], u + [b];
    MatchedInPlace(u, a, b);
    NoMismatches(u);
    assert s1[|u|] != s2[|u|];
    ScoreInPlace(|u|);
    assert s1[..4] == u[..4] && s2[..4] == u[..4];
    assert IsPrefixBonus(s1, s2, 4);
    PrefixBonusIsUnique(s1, s2, 4, PrefixBonus(s1, s2, 0));
  }

  lemma ScoreInPlace(m: nat)
    requires m > 0
    ensures var n := (m + 1) as real;
      Score(m, m + 1, m + 1, 0) == 1.0 - 2.0 / (3.0 * n) && Lift(1.0 - 2.0 / (3.0 * n), 0.4) == 1.0 - 0.4 / n
  {
    var n := (m + 1) as real;
    var r := 1.0 / n;
    assert r * n == 1.0;
    assert m as real / n == 1.0 - r by { assert (1.0 - r) * n == m as real; }
    assert 2.0 / (3.0 * n) == 2.0 * r / 3.0 by { assert 2.0 * r / 3.0 * (3.0 * n) == 2.0; }
    assert 0.4 / n == 0.4 * r by { assert 0.4 * r * n == 0.4; }
    assert m as real / m as real == 1.0;
  }

  // ---------- When every character finds a partner ----------

  function Differing(a: string, b: string): set<nat>
    requires |a| == |b|
  {
    set i: nat | i < |a| && a[i] != b[i]
  }

  lemma {:induction false} MismatchesCountDifferences(a: string, b: string)
    requires |a| == |b|
    ensures Mismatches(a, b) == |Differing(a, b)|
  {
    if a != "" {
      var n := |a| - 1;
      MismatchesCountDifferences(a[..n], b[..n]);
      assert Differing(a, b) == Differing(a[..n], b[..n]) + if a[n] != b[n] then {n} else {};
    }
  }

  /** Every character of two strings of equal length finds a partner: two differing positions make one transposition,
      an odd one left over makes none, and each transposition costs 1/(3n). */
  lemma AllMatchedScore(s1: string, s2: string, h: nat)
    requires |s1| == |s2| > 0 && |Matched1(s1, s2)| == |s1|
    requires |Differing(s1, s2)| == 2 * h || |Differing(s1, s2)| == 2 * h + 1
    ensures Similarity(s1, s2) == 1.0 - h as real / (3.0 * |s1| as real)
  {
    hide Matched1, Matched2, Mismatches, Differing;
    MatchedFit(s1, s2);
    MismatchesCountDifferences(s1, s2);
    if s1 == s2 {
      NoMismatches(s1);
    } else {
      FullScore(|s1|, h);
    }
  }

  lemma FullScore(n: nat, h: nat)
    requires n > 0
    ensures Score(n, n, n, h) == 1.0 - h as real / (3.0 * n as real)
  {
    var x, y := n as real, h as real;
    var r := y / x;
    assert r * x == y;
    assert (n - h) as real == x - y;
    Quotient(x - y, x, 1.0 - r);
    Quotient(y, 3.0 * x, r / 3.0);
    Quotient(x, x, 1.0);
  }

  lemma Quotient(a: real, b: real, q: real)
    requires b != 0.0 && q * b == a
    ensures a / b == q
  {
  }

  /** If p is the greedy matching and leaves nobody out, every character is matched. */
  lemma FullMatching(s1: string, s2: string, p: seq<int>)
    requires |p| == |s1| && Greedy(s1, s2, p) && forall k :: 0 <= k < |p| ==> p[k] >= 0
    ensures |Matched1(s1, s2)| == |s1|
  {
    GreedyIsUnique(s1, s2, p, Matching(s1, s2, |s1|));
    KeptPrefix(s1, Flags1(s1, p), |s1|, |s1|);
  }

  /** Position k moved by the given amount inside the block from m to m + |shift|, and in place elsewhere. */
  function Shifted(n: nat, m: nat, shift: seq<int>): (p: seq<int>)
    ensures |p| == n && forall k :: 0 <= k < n ==> p[k] == k + if m <= k < m + |shift| then shift[k - m] else 0
  {
    seq(n, k => k + if m <= k < m + |shift| then shift[k - m] else 0)
  }

  /** The strings agree outside a block of two or three distinct characters that is rotated by one. */
  ghost predicate RotatedBlock(s1: string, s2: string, m: nat, size: nat) {
    && 2 <= size <= 3 && |s1| == |s2| >= 2 * size && m + size <= |s1|
    && (forall k :: 0 <= k < |s1| && !(m <= k < m + size) ==> s1[k] == s2[k])
    && s2[m + size - 1] == s1[m]
    && (forall k :: m < k < m + size ==> s2[k - 1] == s1[k])
    && (forall j, k :: m <= j < k < m + size ==> s1[j] != s1[k])
  }

  function Rotation(size: nat): seq<int> { if size == 2 then [1, -1] else [2, -1, -1] }

  lemma RotatedChoice(s1: string, s2: string, m: nat, size: nat, k: nat)
    requires RotatedBlock(s1, s2, m, size) && k < |s1|
    ensures var p := Shifted(|s1|, m, Rotation(size)); GreedyChoice(s1, s2, p, k, p[k])
  {
    hide GreedyChoice;
    if m <= k < m + size { ChoiceInBlock(s1, s2, m, size, k); } else { ChoiceOutside(s1, s2, m, size, k); }
  }

  lemma ChoiceInBlock(s1: string, s2: string, m: nat, size: nat, k: nat)
    requires RotatedBlock(s1, s2, m, size) && m <= k < m + size
    ensures var p := Shifted(|s1|, m, Rotation(size)); GreedyChoice(s1, s2, p, k, p[k])
  {
    var p := Shifted(|s1|, m, Rotation(size));
    assert p[k] == k + Rotation(size)[k - m];
    forall j | 0 <= j < m ensures Taken(p, k, j) { assert p[j] == j; }
    if k == m {
      forall j | m <= j < m + size - 1 ensures s2[j] != s1[m] { assert s2[j + 1 - 1] == s1[j + 1]; }
    } else {
      assert p[m + 1] == m;
    }
  }

  lemma ChoiceOutside(s1: string, s2: string, m: nat, size: nat, k: nat)
    requires RotatedBlock(s1, s2, m, size) && k < |s1| && !(m <= k < m + size)
    ensures var p := Shifted(|s1|, m, Rotation(size)); GreedyChoice(s1, s2, p, k, p[k])
  {
    var p := Shifted(|s1|, m, Rotation(size));
    assert p[k] == k;
    if k >= m + size {
      assert p[m] == m + size - 1 && p[m + 1] == m && (size == 3 ==> p[m + 2] == m + 1);
    }
    forall j | 0 <= j < k ensures Taken(p, k, j) {
      if j < m || j >= m + size { assert p[j] == j; }
    }
  }

  lemma RotatedIsFull(s1: string, s2: string, m: nat, size: nat)
    requires RotatedBlock(s1, s2, m, size)
    ensures |Matched1(s1, s2)| == |s1| && |Differing(s1, s2)| == size
  {
    var p := Shifted(|s1|, m, Rotation(size));
    hide GreedyChoice, Matching, Matched1;
    forall k | 0 <= k < |s1| ensures GreedyChoice(s1, s2, p, k, p[k]) { RotatedChoice(s1, s2, m, size, k); }
    FullMatching(s1, s2, p);
    DifferInBlock(s1, s2, m, size);
  }

  lemma DifferInBlock(s1: string, s2: string, m: nat, size: nat)
    requires RotatedBlock(s1, s2, m, size)
    ensures |Differing(s1, s2)| == size
  {
    forall k | 0 <= k < |s1| ensures s1[k] != s2[k] <==> m <= k < m + size {
      if m <= k < m + size - 1 { assert s2[k + 1 - 1] == s1[k + 1]; }
    }
    assert Differing(s1, s2) == if size == 2 then {m, m + 1} else {m, m + 1, m + 2};
  }

  /** Swapping two different neighbours costs exactly 1/(3n), from four characters on. */
  lemma SwappedNeighbours(u: string, a: char, b: char, v: string)
    requires a != b && |u| + |v| >= 2
    ensures Similarity(u + [a, b] + v, u + [b, a] + v) == 1.0 - 1.0 / (3.0 * (|u| + 2 + |v|) as real)
  {
    hide Matched1, Differing, Similarity;
    var s1, s2 := u + [a, b] + v, u + [b, a] + v;
    RotatedIsFull(s1, s2, |u|, 2);
    AllMatchedScore(s1, s2, 1);
  }

  /** Rotating three different neighbours costs no more, from six characters on: the odd mismatch is dropped. */
  lemma RotatedNeighbours(u: string, a: char, b: char, c: char, v: string)
    requires a != b && b != c && a != c && |u| + |v| >= 3
    ensures Similarity(u + [a, b, c] + v, u + [b, c, a] + v) == 1.0 - 1.0 / (3.0 * (|u| + 3 + |v|) as real)
  {
    hide Matched1, Differing, Similarity;
    var s1, s2 := u + [a, b, c] + v, u + [b, c, a] + v;
    RotatedIsFull(s1, s2, |u|, 3);
    AllMatchedScore(s1, s2, 1);
  }

  /** Different strings are at similarity 0 exactly when no equal characters stand at most half the longer length
      (rounded down) minus one apart. */
  lemma NothingInCommonIff(s1: string, s2: string)
    requires s1 != s2
    ensures Similarity(s1, s2) == 0.0 <==>
      forall i: nat, j: nat :: i < |s1| && j < |s2| && s1[i] == s2[j] ==>
        i - j > Max(|s1|, |s2|) / 2 - 1 || j - i > Max(|s1|, |s2|) / 2 - 1
  {
    hide Score, Mismatches, GreedyChoice, Similarity;
    ZeroIffUnmatched(s1, s2);
    var p := Matching(s1, s2, |s1|);
    forall i: nat, j: nat ensures Compatible(s1, s2, i, j) <==>
      i < |s1| && j < |s2| && s1[i] == s2[j]
      && !(i - j > Max(|s1|, |s2|) / 2 - 1 || j - i > Max(|s1|, |s2|) / 2 - 1) {}
    if i: nat, j: nat :| Compatible(s1, s2, i, j) {
      MatchingIsMaximal(s1, s2, i, j);
      SomeMatched(s1, s2, i, j);
    } else {
      forall k | 0 <= k < |s1| ensures !Flags1(s1, p)[k] { Unmatched(s1, s2, p, k); }
      KeptNone(s1, Flags1(s1, p), |s1|);
    }
  }

  lemma ZeroIffUnmatched(s1: string, s2: string)
    requires s1 != s2
    ensures Similarity(s1, s2) == 0.0 <==> Matched1(s1, s2) == ""
  {
    hide Matched1, Matched2, Mismatches, Matching;
    MatchedFit(s1, s2);
    var a, b := Matched1(s1, s2), Matched2(s1, s2);
    if a != "" { PositiveScore(|a|, |s1|, |s2|, Mismatches(a, b) / 2); }
  }

  lemma PositiveScore(m: nat, n1: nat, n2: nat, t: nat)
    requires 0 < m <= n1 && m <= n2 && t <= m
    ensures Score(m, n1, n2, t) > 0.0
  {
    RatioInUnit((m - t) as real, m as real);
    RatioInUnit(m as real, n2 as real);
    assert m as real / n1 as real > 0.0;
  }

  lemma Unmatched(s1: string, s2: string, p: seq<int>, k: nat)
    requires k < |s1| == |p| && Greedy(s1, s2, p) && forall i: nat, j: nat :: !Compatible(s1, s2, i, j)
    ensures p[k] == -1
  {
    assert GreedyChoice(s1, s2, p, k, p[k]);
  }

  lemma SomeMatched(s1: string, s2: string, i: nat, j: nat)
    requires i < |s1| && j < |s2|
    requires var p := Matching(s1, s2, |s1|); Flags1(s1, p)[i] || Flags2(s2, p)[j]
    ensures Matched1(s1, s2) != ""
  {
    hide Matching;
    var p := Matching(s1, s2, |s1|);
    if Flags1(s1, p)[i] {
      KeptHas(s1, Flags1(s1, p), i, |s1|);
    } else {
      KeptHas(s2, Flags2(s2, p), j, |s2|);
      assert |Matched2(s1, s2)| == |Matched1(s1, s2)|;
    }
  }

  lemma {:induction false} KeptHas(s: string, f: seq<bool>, k: nat, n: nat)
    requires k < n <= |s| == |f| && f[k]
    ensures Kept(s, f, n) != []
  {
    if k < n - 1 { KeptHas(s, f, k, n - 1); }
  }
}
