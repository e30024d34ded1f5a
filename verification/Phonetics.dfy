/** Phonetic codes of a name: Soundex and the simplified Metaphone, on its upper-cased letters. */
module Phonetics {

  // ---------- Soundex ----------

  /** The digit of a letter; nothing for vowels, H, W, Y and everything else. */
  function Digit(c: char): string {
    if c in {'B', 'F', 'P', 'V'} then "1"
    else if c in {'C', 'G', 'J', 'K', 'Q', 'S', 'X', 'Z'} then "2"
    else if c in {'D', 'T'} then "3"
    else if c == 'L' then "4"
    else if c in {'M', 'N'} then "5"
    else if c == 'R' then "6"
    else ""
  }

  /** Position i starts a new run of letters with a common digit. */
  predicate StartsRun(w: string, i: nat)
    requires 0 < i < |w|
  {
    Digit(w[i]) != "" && Digit(w[i]) != Digit(w[i - 1])
  }

  /** The digits of the runs that start at positions 1 .. n-1. */
  function RunDigits(w: string, n: nat): string
    requires n <= |w|
  {
    if n <= 1 then ""
    else RunDigits(w, n - 1) + (if StartsRun(w, n - 1) then Digit(w[n - 1]) else "")
  }

  /** First letter, then the first three run digits, padded with zeros. */
  function SoundexCode(w: string): string {
    if w == "" then "" else [w[0]] + (RunDigits(w, |w|) + "000")[..3]
  }

  lemma {:induction false} RunDigitsGrow(w: string, m: nat, n: nat)
    requires m <= n <= |w|
    ensures |RunDigits(w, m)| <= |RunDigits(w, n)|
    ensures RunDigits(w, n)[..|RunDigits(w, m)|] == RunDigits(w, m)
  {
    hide Digit, StartsRun;
    if m < n { RunDigitsGrow(w, m, n - 1); }
  }

  lemma CutToThree(first: char, d: string, all: string)
    requires |d| <= |all| && all[..|d|] == d && (|d| >= 3 || d == all)
    ensures ([first] + d + "000")[..4] == [first] + (all + "000")[..3]
  {
  }

  lemma DigitIsShort(c: char)
    ensures |Digit(c)| <= 1
  {
  }

  lemma RunDigitsStart(w: string)
    requires w != ""
    ensures RunDigits(w, 1) == ""
  {
  }

  lemma RunDigitsStep(w: string, i: nat)
    requires 0 < i < |w|
    ensures RunDigits(w, i + 1) == RunDigits(w, i) + (if StartsRun(w, i) then Digit(w[i]) else "")
  {
  }

  /** The scan that stops at four characters. */
  method Soundex(w: string) returns (code: string)
    ensures code == SoundexCode(w)
  {
    hide Digit, RunDigits;
    if w == "" { return ""; }
    RunDigitsStart(w);
    var encoded := [w[0]];
    var last := Digit(w[0]);
    var i := 1;
    while i < |w|
      invariant 1 <= i <= |w|
      invariant encoded == [w[0]] + RunDigits(w, i) && |encoded| < 4
      invariant last == Digit(w[i - 1])
    {
      var d := Digit(w[i]);
      DigitIsShort(w[i]);
      RunDigitsStep(w, i);
      if d != "" && d != last { encoded := encoded + d; }
      last := d;
      i := i + 1;
      if |encoded| == 4 { break; }
    }
    RunDigitsGrow(w, i, |w|);
    CutToThree(w[0], RunDigits(w, i), RunDigits(w, |w|));
    code := (encoded + "000")[..4];
  }

  /** Changing letters other than the first to letters with the same digit, or none, keeps the code. */
  lemma {:induction false} SoundexSeesOnlyDigits(v: string, w: string, n: nat)
    requires |v| == |w| && n <= |w| && (n > 0 ==> v[0] == w[0])
    requires forall i :: 0 <= i < |w| ==> Digit(v[i]) == Digit(w[i])
    ensures RunDigits(v, n) == RunDigits(w, n)
    ensures n == |w| ==> SoundexCode(v) == SoundexCode(w)
  {
    if n > 0 { SoundexSeesOnlyDigits(v, w, n - 1); }
  }

  /** Doubling any letter keeps the code. */
  lemma SoundexIgnoresDoubling(w: string, i: nat)
    requires i < |w|
    ensures SoundexCode(w[..i + 1] + w[i..]) == SoundexCode(w)
  {
    var v := w[..i + 1] + w[i..];
    assert v[0] == w[0];
    SamePrefix(v, w, i + 1);
    assert v[i + 1] == w[i];
    assert RunDigits(v, i + 2) == RunDigits(w, i + 1);
    SameSuffix(v, w, i + 1, |w|);
  }

  lemma {:induction false} SamePrefix(v: string, w: string, n: nat)
    requires n <= |v| && n <= |w| && v[..n] == w[..n]
    ensures RunDigits(v, n) == RunDigits(w, n)
  {
    if n > 1 {
      assert v[..n][..n - 1] == v[..n - 1] && w[..n][..n - 1] == w[..n - 1];
      SamePrefix(v, w, n - 1);
      assert v[n - 1] == v[..n][n - 1] && w[n - 1] == w[..n][n - 1];
      assert v[n - 2] == v[..n][n - 2] && w[n - 2] == w[..n][n - 2];
    }
  }

  lemma {:induction false} SameSuffix(v: string, w: string, m: nat, n: nat)
    requires 0 < m <= n <= |w| && |v| == |w| + 1
    requires RunDigits(v, m + 1) == RunDigits(w, m)
    requires forall j :: m <= j <= |w| ==> v[j] == w[j - 1]
    ensures RunDigits(v, n + 1) == RunDigits(w, n)
  {
    if m < n {
      SameSuffix(v, w, m, n - 1);
      assert v[n] == w[n - 1] && v[n - 1] == w[n - 2];
    }
  }

  predicate IsDigit(c: char) { '1' <= c <= '6' }

  /** A code is a letter and three digits; once a padding zero appears only zeros follow. */
  lemma SoundexShape(w: string)
    requires w != ""
    ensures var c := SoundexCode(w);
      && |c| == 4 && c[0] == w[0]
      && (forall i :: 1 <= i < 4 ==> IsDigit(c[i]) || c[i] == '0')
      && (forall i, j :: 1 <= i < j < 4 && c[i] == '0' ==> c[j] == '0')
  {
    RunDigitsAreDigits(w, |w|);
  }

  lemma {:induction false} RunDigitsAreDigits(w: string, n: nat)
    requires n <= |w|
    ensures forall i :: 0 <= i < |RunDigits(w, n)| ==> IsDigit(RunDigits(w, n)[i])
  {
    if n > 0 { RunDigitsAreDigits(w, n - 1); }
  }

  // ---------- Against the published algorithm ----------

  /** The published algorithm looks through H and W: equal digits on both sides of them are coded once. */
  predicate IsTransparent(c: char) { c == 'H' || c == 'W' }

  /** The digit of the last letter before position n that is not H or W. */
  function DigitBefore(w: string, n: nat): string
    requires n <= |w|
  {
    if n == 0 then "" else if IsTransparent(w[n - 1]) then DigitBefore(w, n - 1) else Digit(w[n - 1])
  }

  predicate StartsStandardRun(w: string, i: nat)
    requires 0 < i < |w|
  {
    Digit(w[i]) != "" && Digit(w[i]) != DigitBefore(w, i)
  }

  function StandardDigits(w: string, n: nat): string
    requires n <= |w|
  {
    if n <= 1 then ""
    else StandardDigits(w, n - 1) + (if StartsStandardRun(w, n - 1) then Digit(w[n - 1]) else "")
  }

  function StandardCode(w: string): string {
    if w == "" then "" else [w[0]] + (StandardDigits(w, |w|) + "000")[..3]
  }

  /** As published: an H or W inside a name makes no difference to its code. */
  lemma StandardIgnoresAitch(u: string, x: char, v: string)
    requires u != "" && (x == 'H' || x == 'W')
    ensures StandardCode(u + [x] + v) == StandardCode(u + v)
  {
    var long, short := u + [x] + v, u + v;
    assert long[0] == short[0];
    AitchSkipped(u, x, v, |v|);
  }

  lemma {:induction false} AitchSkipped(u: string, x: char, v: string, n: nat)
    requires u != "" && (x == 'H' || x == 'W') && n <= |v|
    ensures var k := |u| + n;
      && DigitBefore(u + [x] + v, k + 1) == DigitBefore(u + v, k)
      && StandardDigits(u + [x] + v, k + 1) == StandardDigits(u + v, k)
  {
    var long, short, k := u + [x] + v, u + v, |u| + n;
    if n == 0 {
      SameStart(long, short, k);
      assert long[k] == x;
    } else {
      AitchSkipped(u, x, v, n - 1);
      assert long[k] == short[k - 1] == v[n - 1];
    }
  }

  lemma {:induction false} SameStart(v: string, w: string, n: nat)
    requires n <= |v| && n <= |w| && forall i :: 0 <= i < n ==> v[i] == w[i]
    ensures DigitBefore(v, n) == DigitBefore(w, n) && StandardDigits(v, n) == StandardDigits(w, n)
  {
    if n > 0 { SameStart(v, w, n - 1); }
  }

  /** Position i repeats the digit last seen before a run of H and W. */
  predicate IsRepeat(w: string, i: nat)
    requires 0 < i < |w|
  {
    Digit(w[i]) != "" && IsTransparent(w[i - 1]) && Digit(w[i]) == DigitBefore(w, i)
  }

  ghost predicate NoRepeat(w: string, n: nat)
    requires n <= |w|
  {
    forall i :: 0 < i < n ==> !IsRepeat(w, i)
  }

  lemma RepeatIsTheDifference(w: string, i: nat)
    requires 0 < i < |w|
    ensures StartsRun(w, i) <==> StartsStandardRun(w, i) || IsRepeat(w, i)
    ensures !(StartsStandardRun(w, i) && IsRepeat(w, i))
  {
  }

  /** The digits of both algorithms agree exactly when no digit is repeated across H and W. */
  lemma {:induction false} DigitsAgreeIff(w: string, n: nat)
    requires n <= |w|
    ensures |StandardDigits(w, n)| <= |RunDigits(w, n)|
    ensures RunDigits(w, n) == StandardDigits(w, n) <==> NoRepeat(w, n)
    ensures NoRepeat(w, n) || |StandardDigits(w, n)| < |RunDigits(w, n)|
  {
    hide IsRepeat, StartsRun, StartsStandardRun, Digit;
    if n > 1 {
      DigitsAgreeIff(w, n - 1);
      RepeatIsTheDifference(w, n - 1);
      DigitIsOne(w, n - 1);
      assert NoRepeat(w, n) <==> NoRepeat(w, n - 1) && !IsRepeat(w, n - 1);
    }
  }

  lemma DigitIsOne(w: string, i: nat)
    requires 0 < i < |w|
    ensures |Digit(w[i])| <= 1
    ensures StartsRun(w, i) ==> |Digit(w[i])| == 1 && IsDigit(Digit(w[i])[0])
  {
  }

  /** While nothing but H, W, vowels or letters with the last coded digit follow, that digit is what can repeat. */
  lemma {:induction false} DigitBeforeIsLast(w: string, n: nat)
    requires 0 < n <= |w|
    ensures DigitBefore(w, n) == "" || DigitBefore(w, n) ==
      if StandardDigits(w, n) == "" then Digit(w[0]) else [StandardDigits(w, n)[|StandardDigits(w, n)| - 1]]
  {
    if n > 1 {
      DigitBeforeIsLast(w, n - 1);
      DigitIsShort(w[n - 1]);
    }
  }

  ghost predicate AllFrom(s: string, k: int, m: int, c: char)
  {
    0 <= k && m <= |s| && forall q :: k <= q < m ==> s[q] == c
  }

  /** From its first repeat on, the standard code is c up to position m and the other one is c up to and including m. */
  ghost predicate Splits(std: string, run: string, k: int, m: int, c: char) {
    && 0 <= k <= m <= |std| && m < |run|
    && AllFrom(std, k, m, c) && AllFrom(run, k, m + 1, c)
    && (m < |std| ==> std[m] != c)
    && (m == |std| ==> AllFrom(run, k, |run|, c))
  }

  lemma {:induction false} StandardDigitsGrow(w: string, m: nat, n: nat)
    requires m <= n <= |w|
    ensures |StandardDigits(w, m)| <= |StandardDigits(w, n)|
    ensures StandardDigits(w, n)[..|StandardDigits(w, m)|] == StandardDigits(w, m)
  {
    hide Digit, StartsStandardRun;
    if m < n { StandardDigitsGrow(w, m, n - 1); }
  }

  /** While the standard code only repeats the digit of the first repeat, so does every further repeat. */
  lemma SameRepeat(w: string, i: nat, n: nat, m: nat)
    requires 0 < i < n < |w| && IsRepeat(w, i) && IsRepeat(w, n)
    requires m == |StandardDigits(w, n)| && AllFrom(StandardDigits(w, n), |StandardDigits(w, i)|, m, Digit(w[i])[0])
    ensures Digit(w[n]) == Digit(w[i])
  {
    hide StandardDigits, Digit;
    StandardDigitsGrow(w, i, n);
    DigitBeforeIsLast(w, i);
    DigitBeforeIsLast(w, n);
    DigitIsOne(w, i);
    DigitIsOne(w, n);
  }

  lemma {:induction false} AfterFirstRepeat(w: string, i: nat, n: nat) returns (m: nat)
    requires 0 < i < n <= |w| && NoRepeat(w, i) && IsRepeat(w, i)
    ensures |StandardDigits(w, i)| <= m
    ensures Splits(StandardDigits(w, n), RunDigits(w, n), |StandardDigits(w, i)|, m, Digit(w[i])[0])
  {
    hide IsRepeat, StartsRun, StartsStandardRun, Digit, RunDigits, StandardDigits;
    hide Splits;
    RepeatIsTheDifference(w, i);
    DigitIsOne(w, i);
    var k, c := |StandardDigits(w, i)|, Digit(w[i])[0];
    assert Digit(w[i]) == [c];
    RunDigitsStep(w, n - 1);
    StandardDigitsStep(w, n - 1);
    RepeatIsTheDifference(w, n - 1);
    DigitIsOne(w, n - 1);
    var std, run := StandardDigits(w, n - 1), RunDigits(w, n - 1);
    var x := if StartsStandardRun(w, n - 1) then Digit(w[n - 1]) else "";
    var y := if StartsRun(w, n - 1) then Digit(w[n - 1]) else "";
    if n == i + 1 {
      DigitsAgreeIff(w, i);
      m := k;
      SplitsStart(std, c);
      assert std + x == std;
    } else {
      m := AfterFirstRepeat(w, i, n - 1);
      SplitsFacts(std, run, k, m, c);
      if IsRepeat(w, n - 1) && m == |std| { SameRepeat(w, i, n - 1, m); }
      SplitsStep(std, run, k, m, c, x, y);
      if m == |std| && x == [c] { m := m + 1; }
    }
  }

  lemma SplitsStart(std: string, c: char)
    ensures Splits(std, std + [c], |std|, |std|, c)
  {
  }

  /** The next letter adds the same to both codes, or is a further repeat. */
  lemma SplitsStep(std: string, run: string, k: nat, m: nat, c: char, x: string, y: string)
    requires Splits(std, run, k, m, c) && |x| <= 1
    requires x == y || (x == "" && (m == |std| ==> y == [c]))
    ensures Splits(std + x, run + y, k, if m == |std| && x == [c] then m + 1 else m, c)
  {
  }

  lemma StandardDigitsStep(w: string, i: nat)
    requires 0 < i < |w|
    ensures StandardDigits(w, i + 1) == StandardDigits(w, i) + (if StartsStandardRun(w, i) then Digit(w[i]) else "")
  {
  }

  /** The first repeat is at i. */
  ghost predicate FirstRepeat(w: string, i: nat) { 0 < i < |w| && NoRepeat(w, i) && IsRepeat(w, i) }

  /** The first repeat changes nothing: three digits are out already, or the standard code goes on with that very
      digit until its end. */
  ghost predicate IsHarmless(w: string, i: nat)
    requires 0 < i < |w| && IsRepeat(w, i)
  {
    var k := |StandardDigits(w, i)|;
    k >= 3 || AllFrom(StandardCode(w), k + 1, 4, Digit(w[i])[0])
  }

  lemma PaddedAgreeIff(std: string, run: string, k: nat, m: nat, c: char)
    requires Splits(std, run, k, m, c) && std[..k] == run[..k] && k < 3 && IsDigit(c)
    ensures (run + "000")[..3] == (std + "000")[..3] <==> m >= 3
  {
    var p, q := (run + "000")[..3], (std + "000")[..3];
    if m >= 3 {
      forall j | 0 <= j < 3 ensures p[j] == q[j] { assert j < k ==> run[..k][j] == std[..k][j]; }
    } else {
      assert p[m] == c && q[m] != c;
    }
  }

  lemma PaddedRepeats(std: string, k: nat, m: nat, c: char)
    requires k <= m <= |std| && k < 3 && AllFrom(std, k, m, c) && (m < |std| ==> std[m] != c) && IsDigit(c)
    ensures AllFrom((std + "000")[..3], k, 3, c) <==> m >= 3
  {
    var q := (std + "000")[..3];
    if m < 3 { assert q[m] != c; }
  }

  /** For every name: the code is the published Soundex code exactly when no digit is repeated across H and W, or the
      first such repeat is harmless. */
  lemma StandardIff(w: string)
    ensures SoundexCode(w) == StandardCode(w) <==> forall i: nat :: FirstRepeat(w, i) ==> IsHarmless(w, i)
  {
    hide IsRepeat, StartsRun, StartsStandardRun, Digit, RunDigits, StandardDigits;
    if w != "" {
      DigitsAgreeIff(w, |w|);
      if !NoRepeat(w, |w|) {
        var i := FindFirstRepeat(w, |w|);
        AgreeIffHarmless(w, i);
      }
    }
  }

  lemma {:induction false} FindFirstRepeat(w: string, n: nat) returns (i: nat)
    requires n <= |w| && !NoRepeat(w, n)
    ensures i < n && FirstRepeat(w, i)
    ensures forall j: nat :: FirstRepeat(w, j) ==> j == i
  {
    if NoRepeat(w, n - 1) { i := n - 1; } else { i := FindFirstRepeat(w, n - 1); }
  }

  lemma AgreeIffHarmless(w: string, i: nat)
    requires FirstRepeat(w, i)
    ensures SoundexCode(w) == StandardCode(w) <==> IsHarmless(w, i)
  {
    hide IsRepeat, StartsRun, StartsStandardRun, Digit, RunDigits, StandardDigits, Splits, AllFrom;
    var k, std, run := |StandardDigits(w, i)|, StandardDigits(w, |w|), RunDigits(w, |w|);
    RepeatIsTheDifference(w, i);
    DigitIsOne(w, i);
    DigitsAgreeIff(w, i);
    StandardDigitsGrow(w, i, |w|);
    RunDigitsGrow(w, i, |w|);
    var m := AfterFirstRepeat(w, i, |w|);
    var c := Digit(w[i])[0];
    TailsEqual(w[0], run, std);
    if k >= 3 {
      SamePadding(std, run, k);
    } else {
      SplitsFacts(std, run, k, m, c);
      PaddedAgreeIff(std, run, k, m, c);
      PaddedRepeats(std, k, m, c);
      ShiftAllFrom(w[0], (std + "000")[..3], k, c);
    }
  }

  lemma TailsEqual(first: char, run: string, std: string)
    ensures [first] + (run + "000")[..3] == [first] + (std + "000")[..3] <==> (run + "000")[..3] == (std + "000")[..3]
  {
    var p, q := (run + "000")[..3], (std + "000")[..3];
    assert ([first] + p)[1..] == p && ([first] + q)[1..] == q;
  }

  lemma SamePadding(std: string, run: string, k: nat)
    requires 3 <= k <= |std| && k <= |run| && std[..k] == run[..k]
    ensures (run + "000")[..3] == (std + "000")[..3]
  {
    assert (run + "000")[..3] == run[..k][..3] && (std + "000")[..3] == std[..k][..3];
  }

  lemma SplitsFacts(std: string, run: string, k: nat, m: nat, c: char)
    requires Splits(std, run, k, m, c)
    ensures k <= m <= |std| && AllFrom(std, k, m, c) && (m < |std| ==> std[m] != c)
  {
  }

  lemma ShiftAllFrom(first: char, tail: string, k: nat, c: char)
    requires |tail| == 3 && k < 3
    ensures AllFrom([first] + tail, k + 1, 4, c) <==> AllFrom(tail, k, 3, c)
  {
    var s := [first] + tail;
    assert forall q :: 0 <= q < 3 ==> s[q + 1] == tail[q];
    if AllFrom(tail, k, 3, c) { forall q | k + 1 <= q < 4 ensures s[q] == c { assert s[q] == tail[q - 1]; } }
  }

  /** H and W separate equal digits here: Ashcraft is A226, and A261 in the published algorithm. */
  lemma AitchSeparates()
    ensures SoundexCode("ASHCRAFT") == "A226" && StandardCode("ASHCRAFT") == "A261"
  {
    var w := "ASHCRAFT";
    CodeOfAshcraft(w);
    StandardOfAshcraft(w);
  }

  lemma CodeOfAshcraft(w: string)
    requires w == "ASHCRAFT"
    ensures SoundexCode(w) == "A226"
  {
    hide RunDigits;
    RunDigitsStart(w);
    RunDigitsStep(w, 1);
    RunDigitsStep(w, 2);
    RunDigitsStep(w, 3);
    RunDigitsStep(w, 4);
    RunDigitsGrow(w, 5, 8);
    assert RunDigits(w, 5) == "226";
    SamePadding("226", RunDigits(w, 8), 3);
  }

  lemma StandardOfAshcraft(w: string)
    requires w == "ASHCRAFT"
    ensures StandardCode(w) == "A261"
  {
    hide StandardDigits, DigitBefore;
    LooksThrough(w);
    assert StandardDigits(w, 1) == "" by { NoStandardDigits(w); }
    StandardDigitsStep(w, 1);
    StandardDigitsStep(w, 2);
    StandardDigitsStep(w, 3);
    StandardDigitsStep(w, 4);
    StandardDigitsStep(w, 5);
    StandardDigitsStep(w, 6);
    StandardDigitsGrow(w, 7, 8);
    assert StandardDigits(w, 7) == "261";
    SamePadding("261", StandardDigits(w, 8), 3);
  }

  lemma NoStandardDigits(w: string)
    requires w != ""
    ensures StandardDigits(w, 1) == ""
  {
  }

  lemma LooksThrough(w: string)
    requires w == "ASHCRAFT"
    ensures DigitBefore(w, 1) == "" && DigitBefore(w, 2) == DigitBefore(w, 3) == "2" && DigitBefore(w, 4) == "2"
    ensures DigitBefore(w, 5) == "6" && DigitBefore(w, 6) == "" && DigitBefore(w, 7) == "1"
  {
  }

  // ---------- Metaphone ----------

  predicate IsVowel(c: char) { c in {'A', 'E', 'I', 'O', 'U'} }

  predicate IsFront(c: char) { c in {'E', 'I', 'Y'} }

  /** The next letter satisfies p. */
  predicate Next(s: string, i: nat, p: char -> bool) { i + 1 < |s| && p(s[i + 1]) }

  predicate NextIs(s: string, i: nat, c: char) { i + 1 < |s| && s[i + 1] == c }

  predicate SoftDG(s: string, i: nat) {
    i + 2 < |s| && s[i] == 'D' && s[i + 1] == 'G' && IsFront(s[i + 2])
  }

  /** Position i belongs to the sound of the letter before it: the H of CH, GH, PH, SH, TH or the G of a soft DG. */
  predicate Absorbed(s: string, i: nat)
    requires i < |s|
  {
    i > 0 && ((s[i] == 'H' && s[i - 1] in {'C', 'G', 'P', 'S', 'T'}) || SoftDG(s, i - 1))
  }

  /** A letter that says nothing at position i > 0 when H does not either. */
  predicate Mute(s: string, i: nat)
    requires i < |s|
  {
    IsVowel(s[i]) || (s[i] in {'W', 'Y'} && !Next(s, i, IsVowel)) || !('A' <= s[i] <= 'Z')
  }

  /** Nothing but a leading vowel has been heard before position i. */
  predicate OnlyVowelBefore(s: string, i: nat)
    requires i < |s|
  {
    i > 0 && IsVowel(s[0]) && forall j :: 1 <= j < i ==> Mute(s, j)
  }

  /** The sound of the letter at i, from its neighbours alone, and for H from what was heard before. */
  function Sound(s: string, i: nat): string
    requires i < |s|
  {
    var c := s[i];
    if Absorbed(s, i) then ""
    else if IsVowel(c) then (if i == 0 then [c] else "")
    else if c == 'C' then (if Next(s, i, IsFront) then "S" else if NextIs(s, i, 'H') then "X" else "K")
    else if c == 'D' then (if SoftDG(s, i) then "J" else "T")
    else if c == 'G' then (if Next(s, i, IsFront) then "J" else if NextIs(s, i, 'H') then "F" else "K")
    else if c == 'H' then (if OnlyVowelBefore(s, i) then "H" else "")
    else if c == 'P' then (if NextIs(s, i, 'H') then "F" else "P")
    else if c == 'S' then (if NextIs(s, i, 'H') then "X" else "S")
    else if c == 'T' then (if NextIs(s, i, 'H') then "0" else "T")
    else if c in {'W', 'Y'} then (if Next(s, i, IsVowel) then [c] else "")
    else if c in {'B', 'F', 'J', 'K', 'L', 'M', 'N', 'R'} then [c]
    else if c == 'Q' then "K"
    else if c == 'V' then "F"
    else if c == 'X' then "KS"
    else if c == 'Z' then "S"
    else ""
  }

  /** The sounds of the first n letters. */
  function Sounds(s: string, n: nat): string
    requires n <= |s|
  {
    if n == 0 then "" else Sounds(s, n - 1) + Sound(s, n - 1)
  }

  function FirstSix(s: string): string { if |s| <= 6 then s else s[..6] }

  predicate StartsWith(s: string, p: string) { |p| <= |s| && s[..|p|] == p }

  /** Silent leading clusters. */
  function Simplified(s: string): string {
    if StartsWith(s, "AE") then "E" + s[2..]
    else if StartsWith(s, "GN") || StartsWith(s, "KN") || StartsWith(s, "PN") then "N" + s[2..]
    else if StartsWith(s, "WR") then "R" + s[2..]
    else if StartsWith(s, "WH") then "W" + s[2..]
    else s
  }

  function MetaphoneCode(w: string): string {
    FirstSix(Sounds(Simplified(w), |Simplified(w)|))
  }

  lemma SoundFacts(s: string, i: nat)
    requires 0 < i < |s|
    ensures Mute(s, i) ==> Sound(s, i) == ""
    ensures !Mute(s, i) && !Absorbed(s, i) && s[i] != 'H' ==>
      Sound(s, i) != "" && !IsVowel(Sound(s, i)[|Sound(s, i)| - 1])
    ensures Absorbed(s, i) || s[i] == 'H' ==>
      !Mute(s, i) && (OnlyVowelBefore(s, i) ==> Sound(s, i) == "H") && (!OnlyVowelBefore(s, i) ==> Sound(s, i) == "")
  {
    if i > 1 && OnlyVowelBefore(s, i) { assert Mute(s, i - 1); }
  }

  lemma FirstSound(s: string)
    requires |s| > 1
    ensures Sounds(s, 1) == Sound(s, 0)
    ensures Sound(s, 0) != "" && IsVowel(Sound(s, 0)[|Sound(s, 0)| - 1]) <==> OnlyVowelBefore(s, 1)
  {
    assert Sounds(s, 0) == "";
  }

  /** What has been heard ends in a vowel exactly when it is a leading vowel followed by mute letters. */
  lemma {:induction false} EndsInVowel(s: string, n: nat)
    requires 0 < n < |s|
    ensures var heard := Sounds(s, n);
      heard != "" && IsVowel(heard[|heard| - 1]) <==> OnlyVowelBefore(s, n)
  {
    hide Mute, OnlyVowelBefore, Sound, Absorbed;
    if n == 1 {
      FirstSound(s);
    } else {
      EndsInVowel(s, n - 1);
      SoundFacts(s, n - 1);
      OnlyVowelStep(s, n - 1);
    }
  }

  lemma OnlyVowelStep(s: string, n: nat)
    requires 0 < n && n + 1 < |s|
    ensures OnlyVowelBefore(s, n + 1) <==> OnlyVowelBefore(s, n) && Mute(s, n)
  {
    hide Mute;
  }

  lemma NothingHeard(s: string)
    ensures Sounds(s, 0) == ""
  {
  }

  /** One letter of the scan: what it adds, and whether the next letter is used up with it. */
  method Hear(s: string, i: nat, out: string) returns (sound: string, skip: bool)
    requires i < |s| && !Absorbed(s, i) && out == Sounds(s, i)
    ensures sound == Sound(s, i)
    ensures skip <==> i + 1 < |s| && Absorbed(s, i + 1)
  {
    hide Sounds;
    if i > 0 { EndsInVowel(s, i); } else { NothingHeard(s); }
    sound, skip := "", false;
    var c := s[i];
    if IsVowel(c) {
      if i == 0 { sound := [c]; }
    } else if c == 'B' {
      sound := "B";
    } else if c == 'C' {
      if Next(s, i, IsFront) {
        sound := "S";
      } else if NextIs(s, i, 'H') {
        sound, skip := "X", true;
      } else {
        sound := "K";
      }
    } else if c == 'D' {
      if SoftDG(s, i) {
        sound, skip := "J", true;
      } else {
        sound := "T";
      }
    } else if c == 'F' {
      sound := "F";
    } else if c == 'G' {
      if Next(s, i, IsFront) {
        sound := "J";
      } else if NextIs(s, i, 'H') {
        sound, skip := "F", true;
      } else {
        sound := "K";
      }
    } else if c == 'H' {
      if out != "" && IsVowel(out[|out| - 1]) { sound := "H"; }
    } else if c in {'J', 'K', 'L', 'M', 'N'} {
      sound := [c];
    } else if c == 'P' {
      if NextIs(s, i, 'H') {
        sound, skip := "F", true;
      } else {
        sound := "P";
      }
    } else if c == 'Q' {
      sound := "K";
    } else if c == 'R' {
      sound := "R";
    } else if c == 'S' {
      if NextIs(s, i, 'H') {
        sound, skip := "X", true;
      } else {
        sound := "S";
      }
    } else if c == 'T' {
      if NextIs(s, i, 'H') {
        sound, skip := "0", true;
      } else {
        sound := "T";
      }
    } else if c == 'V' {
      sound := "F";
    } else if c in {'W', 'Y'} {
      if Next(s, i, IsVowel) { sound := [c]; }
    } else if c == 'X' {
      sound := "KS";
    } else if c == 'Z' {
      sound := "S";
    }
  }

  method Metaphone(w: string) returns (code: string)
    ensures code == MetaphoneCode(w)
  {
    hide Absorbed, Sound;
    var s := Simplified(w);
    var out := "";
    var i := 0;
    NothingAbsorbsTwice(s);
    while i < |s|
      invariant i <= |s| && out == Sounds(s, i)
      invariant i < |s| ==> !Absorbed(s, i)
    {
      var sound, skip := Hear(s, i, out);
      out := out + sound;
      i := i + 1;
      if skip {
        AbsorbedIsSilent(s, i);
        i := i + 1;
      }
    }
    code := FirstSix(out);
  }

  lemma AbsorbedIsSilent(s: string, i: nat)
    requires i < |s| && Absorbed(s, i)
    ensures Sound(s, i) == ""
    ensures Sounds(s, i + 1) == Sounds(s, i)
  {
  }

  /** The first letter is never absorbed, and an absorbed letter absorbs nothing. */
  lemma NothingAbsorbsTwice(s: string)
    ensures s != "" ==> !Absorbed(s, 0)
    ensures forall i :: 0 <= i && i + 1 < |s| && Absorbed(s, i) ==> !Absorbed(s, i + 1)
  {
  }

  // ---------- What the codes do and do not catch ----------

  /** A vowel can only be the first character of a Metaphone code, and only when the name starts with it. */
  lemma {:induction false} VowelsOnlyLead(s: string, n: nat)
    requires n <= |s|
    ensures forall k :: 0 <= k < |Sounds(s, n)| && IsVowel(Sounds(s, n)[k]) ==> k == 0 && Sounds(s, n)[0] == s[0]
  {
    hide Sound;
    if n > 0 {
      VowelsOnlyLead(s, n - 1);
      SoundHasNoVowel(s, n - 1);
    }
  }

  lemma SoundHasNoVowel(s: string, i: nat)
    requires i < |s|
    ensures forall k :: 0 <= k < |Sound(s, i)| && IsVowel(Sound(s, i)[k]) ==> i == 0 && Sound(s, i) == [s[0]]
  {
  }

  /** A letter that stays silent when nothing has been heard yet. */
  predicate Unheard(s: string, i: nat)
    requires i < |s|
  {
    s[i] == 'H' || (if i == 0 then !IsVowel(s[0]) && Mute(s, 0) else Mute(s, i))
  }

  /** The code is empty exactly when, past the leading cluster, every letter is silent: vowels that do not lead,
      H, W or Y before no vowel, and letters outside A to Z. */
  lemma {:induction false} EmptyIffUnheard(s: string, n: nat)
    requires n <= |s|
    ensures Sounds(s, n) == "" <==> forall i :: 0 <= i < n ==> Unheard(s, i)
  {
    hide Sound, Mute, Absorbed;
    if n > 0 {
      EmptyIffUnheard(s, n - 1);
      if forall i :: 0 <= i < n - 1 ==> Unheard(s, i) { SilentSoFar(s, n - 1); }
    }
  }

  lemma SilentSoFar(s: string, n: nat)
    requires n < |s| && forall i :: 0 <= i < n ==> Unheard(s, i)
    ensures Sound(s, n) == "" <==> Unheard(s, n)
  {
    if n > 0 { assert Unheard(s, 0) && Unheard(s, n - 1); }
  }

  /** At most six characters, a vowel only in front, and empty exactly when nothing is heard. */
  lemma MetaphoneShape(w: string)
    ensures var c := MetaphoneCode(w);
      && |c| <= 6
      && (forall k :: 0 < k < |c| ==> !IsVowel(c[k]))
      && (c == "" <==> forall i :: 0 <= i < |Simplified(w)| ==> Unheard(Simplified(w), i))
  {
    var s := Simplified(w);
    VowelsOnlyLead(s, |s|);
    EmptyIffUnheard(s, |s|);
  }

  lemma {:induction false} SoundsGrow(s: string, m: nat, n: nat)
    requires m <= n <= |s|
    ensures |Sounds(s, m)| <= |Sounds(s, n)| && Sounds(s, n)[..|Sounds(s, m)|] == Sounds(s, m)
  {
    hide Sound;
    if m < n { SoundsGrow(s, m, n - 1); }
  }

  /** The module's own example the other way round: Soundex gives Schwartz and Swartz one code, Metaphone two. */
  lemma SchwartzAndSwartz()
    ensures SoundexCode("SCHWARTZ") == SoundexCode("SWARTZ") == "S632"
    ensures MetaphoneCode("SCHWARTZ") != MetaphoneCode("SWARTZ")
  {
    RunsOfSchwartz();
    RunsOfSwartz();
    hide SoundexCode, MetaphoneCode, Sound;
    FirstTwoSounds("SCHWARTZ");
    FirstTwoSounds("SWARTZ");
    SecondSound("SCHWARTZ", 'X');
    SecondSound("SWARTZ", 'W');
  }

  lemma FirstTwoSounds(w: string)
    requires |w| > 2 && w[0] == 'S' && ((w[1] == 'C' && w[2] == 'H') || (w[1] == 'W' && w[2] == 'A'))
    ensures Sound(w, 0) == "S" && Sound(w, 1) == if w[1] == 'C' then "X" else "W"
  {
  }

  lemma RunsOfSchwartz()
    ensures SoundexCode("SCHWARTZ") == "S632"
  {
    var v := "SCHWARTZ";
    NoRunsYet(v, 4);
    LastRuns(v, 4);
  }

  lemma RunsOfSwartz()
    ensures SoundexCode("SWARTZ") == "S632"
  {
    var w := "SWARTZ";
    NoRunsYet(w, 2);
    LastRuns(w, 2);
  }

  lemma {:induction false} NoRunsYet(w: string, n: nat)
    requires n <= |w| && forall i :: 1 <= i < n ==> !StartsRun(w, i)
    ensures RunDigits(w, n) == ""
  {
    if n > 1 { NoRunsYet(w, n - 1); }
  }

  lemma LastRuns(w: string, n: nat)
    requires 0 < n && |w| == n + 4 && RunDigits(w, n) == "" && w[0] == 'S'
    requires w[n] == 'A' && w[n + 1] == 'R' && w[n + 2] == 'T' && w[n + 3] == 'Z'
    ensures SoundexCode(w) == "S632"
  {
    hide RunDigits;
    RunDigitsStep(w, n);
    RunDigitsStep(w, n + 1);
    RunDigitsStep(w, n + 2);
    RunDigitsStep(w, n + 3);
    assert RunDigits(w, n + 4) == "632";
  }

  lemma SecondSound(w: string, heard: char)
    requires |w| > 1 && w[0] == 'S' && Sound(w, 0) == "S" && Sound(w, 1) == [heard]
    ensures |MetaphoneCode(w)| >= 2 && MetaphoneCode(w)[1] == heard
  {
    hide Sound, IsVowel, Simplified;
    NoCluster(w);
    assert Sounds(w, 2) == Sounds(w, 0) + Sound(w, 0) + Sound(w, 1);
    SoundsGrow(w, 2, |w|);
    assert Sounds(w, 2)[1] == heard;
  }

  /** Lee and Leo have the same codes of both kinds. */
  lemma LeeAndLeo()
    ensures SoundexCode("LEE") == SoundexCode("LEO") && MetaphoneCode("LEE") == MetaphoneCode("LEO")
  {
    NoCluster("LEE");
    NoCluster("LEO");
    hide Simplified, SoundexCode, MetaphoneCode;
    VowelsDoNotMatter("LEE", "LEO");
  }

  lemma VowelHasNoDigit(c: char)
    requires IsVowel(c)
    ensures Digit(c) == ""
  {
  }

  lemma NoCluster(w: string)
    requires w != "" && w[0] in {'L', 'S'}
    ensures Simplified(w) == w
  {
  }


  /** Changing vowels other than the first letter to other vowels keeps both codes, if no C, D or G is there to be
      softened by them. */
  lemma VowelsDoNotMatter(v: string, w: string)
    requires |v| == |w| > 0 && v[0] == w[0] && !IsVowel(w[0])
    requires forall i :: 0 <= i < |w| ==> v[i] == w[i] || (IsVowel(v[i]) && IsVowel(w[i]))
    requires forall i :: 0 <= i < |w| ==> w[i] !in {'C', 'D', 'G'}
    requires Simplified(v) == v && Simplified(w) == w
    ensures SoundexCode(v) == SoundexCode(w) && MetaphoneCode(v) == MetaphoneCode(w)
  {
    hide IsVowel, Digit, Sounds, Simplified, RunDigits;
    forall i | 0 <= i < |w| ensures Digit(v[i]) == Digit(w[i]) {
      if v[i] != w[i] { VowelHasNoDigit(v[i]); VowelHasNoDigit(w[i]); }
    }
    SoundexSeesOnlyDigits(v, w, |w|);
    SameSounds(v, w, |w|);
  }

  ghost predicate SameUpToVowels(v: string, w: string) {
    && |v| == |w| > 0 && v[0] == w[0] && !IsVowel(w[0])
    && (forall i :: 0 <= i < |w| ==> v[i] == w[i] || (IsVowel(v[i]) && IsVowel(w[i])))
    && (forall i :: 0 <= i < |w| ==> w[i] !in {'C', 'D', 'G'})
  }

  lemma {:induction false} SameSounds(v: string, w: string, n: nat)
    requires SameUpToVowels(v, w) && n <= |w|
    ensures Sounds(v, n) == Sounds(w, n)
  {
    hide Sound, SameUpToVowels;
    if n > 0 {
      SameSounds(v, w, n - 1);
      SameSound(v, w, n - 1);
    }
  }

  lemma SameSound(v: string, w: string, i: nat)
    requires SameUpToVowels(v, w) && i < |w|
    ensures |v| == |w| && Sound(v, i) == Sound(w, i)
  {
    assert !OnlyVowelBefore(v, i) && !OnlyVowelBefore(w, i);
    assert i + 1 < |w| ==> (IsVowel(v[i + 1]) <==> IsVowel(w[i + 1])) && (v[i + 1] == 'H' <==> w[i + 1] == 'H');
    assert i > 0 ==> (v[i - 1] == w[i - 1] || (IsVowel(v[i - 1]) && IsVowel(w[i - 1])));
  }

  lemma HeardAtOnce(w: string)
    requires w != "" && w[0] in {'L', 'S'}
    ensures MetaphoneCode(w) != ""
  {
    hide Sounds;
    NoCluster(w);
    MetaphoneShape(w);
    assert !Unheard(w, 0);
  }

  // ---------- The tables ----------

  /** The digit classes of the published algorithm. */
  lemma DigitTable(c: char)
    ensures Digit(c) == "1" <==> c in {'B', 'F', 'P', 'V'}
    ensures Digit(c) == "2" <==> c in {'C', 'G', 'J', 'K', 'Q', 'S', 'X', 'Z'}
    ensures Digit(c) == "3" <==> c in {'D', 'T'}
    ensures Digit(c) == "4" <==> c == 'L'
    ensures Digit(c) == "5" <==> c in {'M', 'N'}
    ensures Digit(c) == "6" <==> c == 'R'
    ensures Digit(c) != "" ==> Digit(c) in {"1", "2", "3", "4", "5", "6"}
  {
  }

  /** What Metaphone makes of a letter by itself. */
  lemma OneLetterCodes(c: char)
    ensures var code := MetaphoneCode([c]);
      && (c in {'A', 'E', 'I', 'O', 'U', 'B', 'F', 'J', 'K', 'L', 'M', 'N', 'P', 'R', 'S', 'T'} ==> code == [c])
      && (c in {'C', 'G', 'Q'} ==> code == "K") && (c == 'D' ==> code == "T") && (c == 'V' ==> code == "F")
      && (c == 'X' ==> code == "KS") && (c == 'Z' ==> code == "S") && (c in {'H', 'W', 'Y'} ==> code == "")
  {
    hide Sound;
    NothingHeard([c]);
    assert Simplified([c]) == [c];
    assert Sounds([c], 1) == Sounds([c], 0) + Sound([c], 0);
    AloneSounds(c);
  }

  lemma AloneSounds(c: char)
    ensures var s := Sound([c], 0);
      && (c in {'A', 'E', 'I', 'O', 'U', 'B', 'F', 'J', 'K', 'L', 'M', 'N', 'P', 'R', 'S', 'T'} ==> s == [c])
      && (c in {'C', 'G', 'Q'} ==> s == "K") && (c == 'D' ==> s == "T") && (c == 'V' ==> s == "F")
      && (c == 'X' ==> s == "KS") && (c == 'Z' ==> s == "S") && (c in {'H', 'W', 'Y'} ==> s == "")
  {
  }

  /** What the next letter makes of a letter inside a name. */
  lemma DigraphTable(s: string, i: nat)
    requires 0 < i && i + 1 < |s| && !Absorbed(s, i)
    ensures var c, d := s[i], s[i + 1];
      && (d == 'H' ==> Sound(s, i + 1) == "" || c !in {'C', 'G', 'P', 'S', 'T'})
      && (c in {'C', 'S'} && d == 'H' ==> Sound(s, i) == "X")
      && (c in {'G', 'P'} && d == 'H' ==> Sound(s, i) == "F")
      && (c == 'T' && d == 'H' ==> Sound(s, i) == "0")
      && (c == 'C' && d in {'E', 'I', 'Y'} ==> Sound(s, i) == "S")
      && (c == 'G' && d in {'E', 'I', 'Y'} ==> Sound(s, i) == "J")
      && (c == 'D' && d == 'G' && i + 2 < |s| && s[i + 2] in {'E', 'I', 'Y'} ==> Sound(s, i) == "J" && Sound(s, i + 1) == "")
      && (c in {'W', 'Y'} && d in {'A', 'E', 'I', 'O', 'U'} ==> Sound(s, i) == [c])
      && (c in {'W', 'Y'} && d !in {'A', 'E', 'I', 'O', 'U'} ==> Sound(s, i) == "")
      && (c in {'A', 'E', 'I', 'O', 'U'} ==> Sound(s, i) == "")
  {
  }

  /** The leading clusters that lose a letter; nothing else is changed. */
  lemma ClusterTable(a: char, b: char, x: string)
    ensures Simplified([a, b] + x) ==
      if (a == 'G' || a == 'K' || a == 'P') && b == 'N' then ['N'] + x
      else if a == 'A' && b == 'E' then ['E'] + x
      else if a == 'W' && b == 'R' then ['R'] + x
      else if a == 'W' && b == 'H' then ['W'] + x
      else [a, b] + x
  {
    hide StartsWith;
    var w := [a, b] + x;
    assert w[2..] == x;
    StartsWithTwo(w, 'A', 'E');
    StartsWithTwo(w, 'G', 'N');
    StartsWithTwo(w, 'K', 'N');
    StartsWithTwo(w, 'P', 'N');
    StartsWithTwo(w, 'W', 'R');
    StartsWithTwo(w, 'W', 'H');
  }

  lemma StartsWithTwo(w: string, a: char, b: char)
    requires |w| >= 2
    ensures StartsWith(w, [a, b]) <==> w[0] == a && w[1] == b
  {
    assert w[..2] == [w[0], w[1]];
  }
}
