/** Subsequences picked out by a sequence of flags, and two facts about reals used with scores. */
module Selection {

  function Kept<T>(s: seq<T>, f: seq<bool>, n: nat): (r: seq<T>)
    requires n <= |s| == |f|
    ensures |r| <= n
  {
    if n == 0 then []
    else Kept(s, f, n - 1) + (if f[n - 1] then [s[n - 1]] else [])
  }

  lemma {:induction false} KeptLocal<T>(s: seq<T>, f: seq<bool>, g: seq<bool>, n: nat)
    requires n <= |s| == |f| == |g| && forall k :: 0 <= k < n ==> f[k] == g[k]
    ensures Kept(s, f, n) == Kept(s, g, n)
  {
    if n > 0 { KeptLocal(s, f, g, n - 1); }
  }

  /** Raising one flag inserts that one element. */
  lemma {:induction false} KeptFlagOne<T>(s: seq<T>, f: seq<bool>, j: nat, n: nat) returns (a: seq<T>, b: seq<T>)
    requires j < n <= |s| == |f| && !f[j]
    ensures Kept(s, f, n) == a + b && Kept(s, f[j := true], n) == a + [s[j]] + b
  {
    var g := f[j := true];
    if j == n - 1 {
      KeptLocal(s, f, g, n - 1);
      a, b := Kept(s, f, n - 1), [];
    } else {
      a, b := KeptFlagOne(s, f, j, n - 1);
      var last := if f[n - 1] then [s[n - 1]] else [];
      assert g[n - 1] == f[n - 1];
      assert a + [s[j]] + b + last == a + [s[j]] + (b + last);
      assert a + b + last == a + (b + last);
      b := b + last;
    }
  }

  lemma {:induction false} KeptNone<T>(s: seq<T>, f: seq<bool>, n: nat)
    requires n <= |s| == |f| && forall k :: 0 <= k < n ==> !f[k]
    ensures Kept(s, f, n) == []
  {
    if n > 0 { KeptNone(s, f, n - 1); }
  }

  /** All n elements are kept exactly when the kept sequence has length n. */
  lemma {:induction false} KeptAll<T>(s: seq<T>, f: seq<bool>, n: nat)
    requires n <= |s| == |f| && |Kept(s, f, n)| == n
    ensures Kept(s, f, n) == s[..n]
  {
    if n > 0 {
      KeptAll(s, f, n - 1);
      assert s[..n] == s[..n - 1] + [s[n - 1]];
    }
  }

  lemma {:induction false} KeptGrows<T>(s: seq<T>, f: seq<bool>, m: nat, n: nat)
    requires m <= n <= |s| == |f|
    ensures |Kept(s, f, m)| <= |Kept(s, f, n)|
    decreases n
  {
    if m < n { KeptGrows(s, f, m, n - 1); }
  }

  lemma {:induction false} KeptTail<T>(s: seq<T>, f: seq<bool>, m: nat, n: nat)
    requires m <= n <= |s| == |f| && |Kept(s, f, m)| == |Kept(s, f, n)|
    ensures Kept(s, f, m) == Kept(s, f, n)
    decreases n
  {
    if m < n {
      KeptGrows(s, f, m, n - 1);
      KeptTail(s, f, m, n - 1);
    }
  }

  lemma RatioInUnit(x: real, y: real)
    requires 0.0 <= x <= y && y > 0.0
    ensures 0.0 <= x / y <= 1.0 && (x / y == 1.0 <==> x == y)
  {
  }

  lemma ProductSign(x: real, y: real)
    requires 0.0 <= x && 0.0 <= y
    ensures 0.0 <= x * y && (x * y == 0.0 <==> x == 0.0 || y == 0.0)
  {
    if x > 0.0 && y > 0.0 { assert x * y > 0.0; }
  }
}
