/** Bounded Levenshtein distance.

  Distance is defined by the usual recurrence and proved to be the least cost of any edit script; the method
  is the two-row dynamic program with its two early exits. */
module EditDistance {
  import opened Basics

  /** Distance between the first i characters of a and the first j characters of b. */
  function Dist(a: string, b: string, i: nat, j: nat): nat
    requires i <= |a| && j <= |b|
  {
    if i == 0 then j
    else if j == 0 then i
    else Min(Min(Dist(a, b, i, j - 1) + 1, Dist(a, b, i - 1, j) + 1),
             Dist(a, b, i - 1, j - 1) + (if a[i - 1] == b[j - 1] then 0 else 1))
  }

  function Distance(a: string, b: string): nat { Dist(a, b, |a|, |b|) }

  // ---------- The distance is the least cost of an edit script ----------

  datatype Edit = Keep | Replace(c: char) | Insert(c: char) | Delete

  function Cost(s: seq<Edit>): nat {
    if s == [] then 0 else Cost(s[..|s| - 1]) + (if s[|s| - 1] == Keep then 0 else 1)
  }

  /** s turns a into b; the last edit concerns the last characters. */
  ghost predicate Turns(s: seq<Edit>, a: string, b: string) {
    if s == [] then a == "" && b == ""
    else
      var rest := s[..|s| - 1];
      match s[|s| - 1]
      case Keep => a != "" && b != "" && a[|a| - 1] == b[|b| - 1] && Turns(rest, a[..|a| - 1], b[..|b| - 1])
      case Replace(c) => a != "" && b != "" && b[|b| - 1] == c && Turns(rest, a[..|a| - 1], b[..|b| - 1])
      case Insert(c) => b != "" && b[|b| - 1] == c && Turns(rest, a, b[..|b| - 1])
      case Delete => a != "" && Turns(rest, a[..|a| - 1], b)
  }

  lemma {:induction false} CheapestScript(a: string, b: string, i: nat, j: nat) returns (s: seq<Edit>)
    requires i <= |a| && j <= |b|
    ensures Turns(s, a[..i], b[..j]) && Cost(s) == Dist(a, b, i, j)
  {
    var last: Edit;
    if i == 0 && j == 0 {
      return [];
    } else if i == 0 || (j > 0 && Dist(a, b, i, j) == Dist(a, b, i, j - 1) + 1) {
      s := CheapestScript(a, b, i, j - 1);
      last := Insert(b[j - 1]);
    } else if j == 0 || Dist(a, b, i, j) == Dist(a, b, i - 1, j) + 1 {
      s := CheapestScript(a, b, i - 1, j);
      last := Delete;
    } else {
      s := CheapestScript(a, b, i - 1, j - 1);
      last := if a[i - 1] == b[j - 1] then Keep else Replace(b[j - 1]);
    }
    assert i > 0 ==> a[..i][..i - 1] == a[..i - 1];
    assert j > 0 ==> b[..j][..j - 1] == b[..j - 1];
    assert (s + [last])[..|s|] == s;
    s := s + [last];
  }

  lemma {:induction false} NoScriptIsCheaper(s: seq<Edit>, a: string, b: string, i: nat, j: nat)
    requires i <= |a| && j <= |b| && Turns(s, a[..i], b[..j])
    ensures Cost(s) >= Dist(a, b, i, j)
    decreases |s|
  {
    if s != [] {
      var rest := s[..|s| - 1];
      assert i > 0 ==> a[..i][..i - 1] == a[..i - 1];
      assert j > 0 ==> b[..j][..j - 1] == b[..j - 1];
      match s[|s| - 1] {
        case Keep | Replace(_) => NoScriptIsCheaper(rest, a, b, i - 1, j - 1);
        case Insert(_) => NoScriptIsCheaper(rest, a, b, i, j - 1);
        case Delete => NoScriptIsCheaper(rest, a, b, i - 1, j);
      }
    }
  }

  /** Distance(a, b) is the cost of some script from a to b, and no script from a to b costs less. */
  lemma DistanceIsLeastCost(a: string, b: string)
    ensures exists s :: Turns(s, a, b) && Cost(s) == Distance(a, b)
    ensures forall s :: Turns(s, a, b) ==> Cost(s) >= Distance(a, b)
  {
    assert a[..|a|] == a && b[..|b|] == b;
    var s := CheapestScript(a, b, |a|, |b|);
    forall s | Turns(s, a, b) ensures Cost(s) >= Distance(a, b) {
      NoScriptIsCheaper(s, a, b, |a|, |b|);
    }
  }

  // ---------- Facts behind the early exits ----------

  lemma DistUnfolds(a: string, b: string, i: nat, j: nat)
    requires i <= |a| && j <= |b|
    ensures i == 0 ==> Dist(a, b, i, j) == j
    ensures j == 0 ==> Dist(a, b, i, j) == i
    ensures i > 0 && j > 0 ==>
      var d, e := Dist(a, b, i, j), Dist(a, b, i - 1, j - 1) + (if a[i - 1] == b[j - 1] then 0 else 1);
      && d <= Dist(a, b, i, j - 1) + 1 && d <= Dist(a, b, i - 1, j) + 1 && d <= e
      && (d == Dist(a, b, i, j - 1) + 1 || d == Dist(a, b, i - 1, j) + 1 || d == e)
  {
  }

  lemma {:induction false} LengthGap(a: string, b: string, i: nat, j: nat)
    requires i <= |a| && j <= |b|
    ensures Dist(a, b, i, j) >= i - j && Dist(a, b, i, j) >= j - i
  {
    hide Dist;
    DistUnfolds(a, b, i, j);
    if i > 0 && j > 0 {
      LengthGap(a, b, i, j - 1);
      LengthGap(a, b, i - 1, j);
      LengthGap(a, b, i - 1, j - 1);
    }
  }

  /** The distance vanishes exactly on equal strings. */
  lemma {:induction false} ZeroIffEqual(a: string, b: string, i: nat, j: nat)
    requires i <= |a| && j <= |b|
    ensures Dist(a, b, i, j) == 0 <==> a[..i] == b[..j]
  {
    hide Dist;
    DistUnfolds(a, b, i, j);
    LengthGap(a, b, i, j);
    if i == j && i > 0 {
      ZeroIffEqual(a, b, i - 1, j - 1);
      assert a[..i] == a[..i - 1] + [a[i - 1]];
      assert b[..j] == b[..j - 1] + [b[j - 1]];
    } else {
      assert |a[..i]| == i && |b[..j]| == j;
    }
  }

  ghost predicate RowAbove(a: string, b: string, i: nat, cap: int)
    requires i <= |a|
  {
    forall j :: 0 <= j <= |b| ==> Dist(a, b, i, j) > cap
  }

  /** Row minima never decrease, so a row above the cap stays above it. */
  lemma {:induction false} RowMinimumGrows(a: string, b: string, i: nat, n: nat, j: nat, cap: int)
    requires i <= n <= |a| && j <= |b| && RowAbove(a, b, i, cap)
    ensures Dist(a, b, n, j) > cap
    decreases n, j
  {
    if i < n {
      assert Dist(a, b, i, 0) > cap;
      if j > 0 {
        RowMinimumGrows(a, b, i, n, j - 1, cap);
        RowMinimumGrows(a, b, i, n - 1, j, cap);
        RowMinimumGrows(a, b, i, n - 1, j - 1, cap);
      }
    }
  }

  // ---------- The bounded method ----------

  /** The answer is cut off: the lengths are too far apart, or some row lies above the cap entirely. */
  ghost predicate CutOff(a: string, b: string, cap: int) {
    || |a| - |b| > cap || |b| - |a| > cap
    || exists i: nat :: 1 <= i <= |a| && RowAbove(a, b, i, cap)
  }

  lemma CutOffMeansFar(a: string, b: string, cap: int)
    requires CutOff(a, b, cap)
    ensures Distance(a, b) > cap
  {
    LengthGap(a, b, |a|, |b|);
    if i: nat :| 1 <= i <= |a| && RowAbove(a, b, i, cap) {
      RowMinimumGrows(a, b, i, |a|, |b|, cap);
    }
  }

  /** The documentation says a distance beyond the cap is reported as cap + 1.  The true distance can be
      reported instead: here it is 3 with cap 1, and nothing cuts the computation off. */
  lemma CanExceedCapPlusOne()
    ensures !CutOff("xab", "abcd", 1) && Distance("xab", "abcd") == 3
  {
    var a, b := "xab", "abcd";
    assert Dist(a, b, 1, 1) == 1;
    assert Dist(a, b, 2, 0) == 2 && Dist(a, b, 1, 0) == 1;
    assert Dist(a, b, 2, 1) == 1;
    assert Dist(a, b, 1, 2) == 2 && Dist(a, b, 1, 3) == 3 && Dist(a, b, 1, 4) == 4;
    assert Dist(a, b, 2, 2) == 2 && Dist(a, b, 2, 3) == 3 && Dist(a, b, 2, 4) == 4;
    assert Dist(a, b, 3, 1) == 2 && Dist(a, b, 3, 2) == 1 && Dist(a, b, 3, 3) == 2 && Dist(a, b, 3, 4) == 3;
  }

  /** One row of the table from the row above it, with the smallest entry. */
  method NextRow(a: string, b: string, i: nat, prev: array<int>) returns (curr: array<int>, rowMin: int)
    requires 1 <= i <= |a| && prev.Length == |b| + 1
    requires forall j :: 0 <= j <= |b| ==> prev[j] == Dist(a, b, i - 1, j)
    ensures curr.Length == |b| + 1
    ensures forall j :: 0 <= j <= |b| ==> curr[j] == Dist(a, b, i, j)
    ensures forall cap :: RowAbove(a, b, i, cap) <==> rowMin > cap
  {
    curr := new int[|b| + 1](_ => 0);
    curr[0] := i;
    rowMin := i;
    ghost var least := 0;
    var j := 1;
    while j <= |b|
      invariant 1 <= j <= |b| + 1
      invariant forall k :: 0 <= k < j ==> curr[k] == Dist(a, b, i, k) && rowMin <= curr[k]
      invariant 0 <= least < j && rowMin == Dist(a, b, i, least)
    {
      var cost := if a[i - 1] == b[j - 1] then 0 else 1;
      curr[j] := Min(Min(curr[j - 1] + 1, prev[j] + 1), prev[j - 1] + cost);
      if curr[j] < rowMin { least := j; }
      rowMin := Min(rowMin, curr[j]);
      j := j + 1;
    }
  }

  /** The true distance whenever it is within the cap, and something above the cap otherwise. */
  method Levenshtein(a: string, b: string, cap: int) returns (r: int)
    ensures if Distance(a, b) <= cap then r == Distance(a, b) else r > cap
    ensures r == if CutOff(a, b, cap) then cap + 1 else Distance(a, b)
  {
    hide Dist;
    if CutOff(a, b, cap) { CutOffMeansFar(a, b, cap); }
    forall j | 0 <= j <= |b| ensures Dist(a, b, 0, j) == j { DistUnfolds(a, b, 0, j); }
    if |a| - |b| > cap || |b| - |a| > cap { return cap + 1; }
    assert a[..|a|] == a && b[..|b|] == b;
    ZeroIffEqual(a, b, |a|, |b|);
    if a == b { return 0; }
    var prev := new int[|b| + 1](j => j);
    var i := 1;
    while i <= |a|
      invariant 1 <= i <= |a| + 1
      invariant prev.Length == |b| + 1 && forall j :: 0 <= j <= |b| ==> prev[j] == Dist(a, b, i - 1, j)
      invariant forall k: nat :: 1 <= k < i ==> !RowAbove(a, b, k, cap)
    {
      var curr, rowMin := NextRow(a, b, i, prev);
      if rowMin > cap {
        assert RowAbove(a, b, i, cap);
        return cap + 1;
      }
      prev := curr;
      i := i + 1;
    }
    return prev[|b|];
  }

  // ---------- The distance is a metric ----------

  lemma {:induction false} AtMostLonger(a: string, b: string, i: nat, j: nat)
    requires i <= |a| && j <= |b|
    ensures Dist(a, b, i, j) <= Max(i, j)
  {
    hide Dist;
    DistUnfolds(a, b, i, j);
    if i > 0 && j > 0 { AtMostLonger(a, b, i - 1, j - 1); }
  }

  lemma {:induction false} Symmetric(a: string, b: string, i: nat, j: nat)
    requires i <= |a| && j <= |b|
    ensures Dist(a, b, i, j) == Dist(b, a, j, i)
  {
    hide Dist;
    DistUnfolds(a, b, i, j);
    DistUnfolds(b, a, j, i);
    if i > 0 && j > 0 {
      Symmetric(a, b, i, j - 1);
      Symmetric(a, b, i - 1, j);
      Symmetric(a, b, i - 1, j - 1);
    }
  }

  lemma {:induction false} Triangle(a: string, b: string, c: string, i: nat, j: nat, k: nat)
    requires i <= |a| && j <= |b| && k <= |c|
    ensures Dist(a, c, i, k) <= Dist(a, b, i, j) + Dist(b, c, j, k)
    decreases i + j + k
  {
    hide Dist;
    DistUnfolds(a, c, i, k);
    DistUnfolds(a, b, i, j);
    DistUnfolds(b, c, j, k);
    if i == 0 || j == 0 || k == 0 {
      LengthGap(a, b, i, j);
      LengthGap(b, c, j, k);
      AtMostLonger(a, c, i, k);
    } else if Dist(a, b, i, j) == Dist(a, b, i - 1, j) + 1 {
      Triangle(a, b, c, i - 1, j, k);
    } else if Dist(b, c, j, k) == Dist(b, c, j, k - 1) + 1 {
      Triangle(a, b, c, i, j, k - 1);
    } else if Dist(a, b, i, j) == Dist(a, b, i, j - 1) + 1 {
      Triangle(a, b, c, i, j - 1, k);
      Triangle(a, b, c, i, j - 1, k - 1);
    } else {
      Triangle(a, b, c, i - 1, j - 1, k);
      Triangle(a, b, c, i - 1, j - 1, k - 1);
    }
  }

  /** Symmetric, zero exactly on equal strings, never more than by way of a third string, and at most the longer
      length. */
  lemma DistanceIsMetric(a: string, b: string, c: string)
    ensures Distance(a, b) == Distance(b, a)
    ensures Distance(a, b) == 0 <==> a == b
    ensures Distance(a, c) <= Distance(a, b) + Distance(b, c)
    ensures Distance(a, b) <= Max(|a|, |b|)
  {
    hide Dist;
    assert a[..|a|] == a && b[..|b|] == b;
    Symmetric(a, b, |a|, |b|);
    ZeroIffEqual(a, b, |a|, |b|);
    Triangle(a, b, c, |a|, |b|, |c|);
    AtMostLonger(a, b, |a|, |b|);
  }

  /** A common last character costs nothing. */
  lemma LastSame(a: string, b: string, x: char)
    ensures Distance(a + [x], b + [x]) <= Distance(a, b)
  {
    hide Dist;
    Prefixes(a, b, [x], [x], |a|, |b|);
    DistUnfolds(a + [x], b + [x], |a| + 1, |b| + 1);
  }

  lemma {:induction false} Prefixes(a: string, b: string, c: string, d: string, i: nat, j: nat)
    requires i <= |a| && j <= |b|
    ensures Dist(a + c, b + d, i, j) == Dist(a, b, i, j)
  {
    hide Dist;
    DistUnfolds(a + c, b + d, i, j);
    DistUnfolds(a, b, i, j);
    if i > 0 && j > 0 {
      Prefixes(a, b, c, d, i, j - 1);
      Prefixes(a, b, c, d, i - 1, j);
      Prefixes(a, b, c, d, i - 1, j - 1);
    }
  }

  lemma {:induction false} TailSame(a: string, b: string, v: string)
    ensures Distance(a + v, b + v) <= Distance(a, b)
  {
    if v == "" {
      assert a + v == a && b + v == b;
    } else {
      var n := |v| - 1;
      TailSame(a, b, v[..n]);
      LastSame(a + v[..n], b + v[..n], v[n]);
      assert a + v == a + v[..n] + [v[n]] && b + v == b + v[..n] + [v[n]];
    }
  }

  /** Each kind of edit costs exactly one, wherever it happens. */
  lemma OneEdit(u: string, x: char, y: char, v: string)
    requires x != y
    ensures Distance(u + [x] + v, u + [y] + v) == 1
    ensures Distance(u + [x] + v, u + v) == 1 && Distance(u + v, u + [x] + v) == 1
  {
    hide Dist;
    DistanceIsMetric(u, u, u);
    Prefixes(u, u, [x], [y], |u|, |u|);
    DistUnfolds(u + [x], u + [y], |u| + 1, |u| + 1);
    Prefixes(u, u, [x], [], |u|, |u|);
    assert u + [] == u;
    DistUnfolds(u + [x], u, |u| + 1, |u|);
    TailSame(u + [x], u + [y], v);
    TailSame(u + [x], u, v);
    assert (u + [x] + v)[|u|] != (u + [y] + v)[|u|];
    DistanceIsMetric(u + [x] + v, u + [y] + v, u);
    DistanceIsMetric(u + [x] + v, u + v, u);
  }
}
