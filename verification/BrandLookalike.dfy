/** Brand-lookalike detection for domains.

  The domain is already lower-cased and stripped of trailing dots.  The two sets are iterated in an arbitrary
  order, and the verdict is proved not to depend on it. */
module BrandLookalike {
  import opened Basics
  import opened EditDistance

  // ---------- Labels ----------

  predicate HasDot(s: string) { '.' in s }

  /** Position of the first dot. */
  function FirstDot(s: string): (i: nat)
    requires HasDot(s)
    ensures i < |s| && s[i] == '.' && !HasDot(s[..i])
  {
    if s[0] == '.' then 0
    else
      var i := 1 + FirstDot(s[1..]);
      assert s[..i] == [s[0]] + s[1..][..i - 1];
      i
  }

  lemma FirstDotIsUnique(s: string, i: nat)
    requires i < |s| && s[i] == '.' && !HasDot(s[..i])
    ensures HasDot(s) && FirstDot(s) == i
  {
  }

  function Split(s: string): (labels: seq<string>)
    ensures |labels| > 0
    decreases |s|
  {
    if HasDot(s) then [s[..FirstDot(s)]] + Split(s[FirstDot(s) + 1..]) else [s]
  }

  function Join(labels: seq<string>): string
    requires |labels| > 0
  {
    if |labels| == 1 then labels[0] else labels[0] + "." + Join(labels[1..])
  }

  /** Splitting loses nothing: joining the labels gives the domain back, and no label contains a dot. */
  lemma {:induction false} SplitJoin(s: string)
    ensures Join(Split(s)) == s
    ensures forall i :: 0 <= i < |Split(s)| ==> !HasDot(Split(s)[i])
    decreases |s|
  {
    if HasDot(s) {
      var i := FirstDot(s);
      SplitJoin(s[i + 1..]);
      assert Split(s)[1..] == Split(s[i + 1..]);
      assert s == s[..i] + "." + s[i + 1..];
    }
  }

  lemma {:induction false} SplitHead(first: string, rest: string)
    requires !HasDot(first)
    ensures Split(first + "." + rest) == [first] + Split(rest)
  {
    var s := first + "." + rest;
    assert s[|first|] == '.' && s[..|first|] == first && s[|first| + 1..] == rest;
    FirstDotIsUnique(s, |first|);
  }

  /** Splitting undoes joining, so a list of dot-free labels is recovered exactly. */
  lemma {:induction false} JoinSplit(labels: seq<string>)
    requires |labels| > 0 && forall i :: 0 <= i < |labels| ==> !HasDot(labels[i])
    ensures Split(Join(labels)) == labels
  {
    if |labels| > 1 {
      JoinSplit(labels[1..]);
      SplitHead(labels[0], Join(labels[1..]));
      assert labels == [labels[0]] + labels[1..];
    } else {
      assert Join(labels) == labels[0];
      assert labels == [labels[0]];
    }
  }

  /** Naive eTLD+1: the last two labels. */
  function Registrable(d: string): string {
    var labels := Split(d);
    if |labels| <= 2 then d else Join(labels[|labels| - 2..])
  }

  function Root(d: string): string { Split(d)[0] }

  /** The root label compared by edit distance is the second label from the right (or the only one). */
  lemma {:induction false} RootOfRegistrable(d: string)
    ensures var labels := Split(d);
      Root(Registrable(d)) == if |labels| == 1 then labels[0] else labels[|labels| - 2]
  {
    var labels := Split(d);
    SplitJoin(d);
    if |labels| > 2 { JoinSplit(labels[|labels| - 2..]); }
  }

  predicate OccursAt(part: string, kw: string, i: int) {
    0 <= i <= |part| - |kw| && part[i..i + |kw|] == kw
  }

  predicate Contains(part: string, kw: string) {
    exists i :: 0 <= i <= |part| && OccursAt(part, kw, i)
  }

  /** A keyword is contained wherever it stands in the label. */
  lemma ContainsMeans(part: string, kw: string)
    ensures Contains(part, kw) <==> exists before, after :: part == before + kw + after
  {
    if i :| 0 <= i <= |part| && OccursAt(part, kw, i) {
      assert part == part[..i] + kw + part[i + |kw|..];
    }
    if before, after :| part == before + kw + after {
      assert OccursAt(part, kw, |before|);
    }
  }

  // ---------- The verdict ----------

  datatype Verdict = Verdict(isLookalike: bool, target: Option<string>, distance: Option<int>)

  predicate HasKeyword(part: string, keywords: set<string>) {
    exists kw :: kw in keywords && Contains(part, kw)
  }

  /** l is a legitimate domain whose root is close to, but not the same as, the domain's root. */
  predicate IsNear(d: string, legitimate: set<string>, threshold: int, l: string) {
    l in legitimate && 1 <= RootDistance(d, l) <= threshold
  }

  function RootDistance(d: string, l: string): nat {
    Distance(Root(Registrable(d)), Root(l))
  }

  /** What is compared: the second label of the domain from the right (or its only one) with the first label of the
      legitimate domain. */
  lemma RootDistanceMeans(d: string, l: string)
    ensures var labels := Split(d);
      RootDistance(d, l) == Distance(if |labels| == 1 then labels[0] else labels[|labels| - 2], Split(l)[0])
  {
    RootOfRegistrable(d);
  }

  predicate SomeLabelHasKeyword(d: string, keywords: set<string>) {
    exists i :: 0 <= i < |Split(d)| && HasKeyword(Split(d)[i], keywords)
  }

  predicate SomeRootIsNear(d: string, legitimate: set<string>, threshold: int) {
    exists l :: l in legitimate && IsNear(d, legitimate, threshold, l)
  }

  /** What the detector may answer. */
  ghost predicate IsVerdict(d: string, legitimate: set<string>, keywords: set<string>, threshold: int, v: Verdict) {
    var labels := Split(d);
    if Registrable(d) in legitimate then
      v == Verdict(false, None, None)
    else if SomeLabelHasKeyword(d, keywords) then
      && v.isLookalike && v.distance == None && v.target.Some? && v.target.value in keywords
      && exists i :: 0 <= i < |labels| && Contains(labels[i], v.target.value)
                     && forall k :: 0 <= k < i ==> !HasKeyword(labels[k], keywords)
    else if SomeRootIsNear(d, legitimate, threshold) then
      && v.isLookalike && v.target.Some? && v.distance.Some?
      && IsNear(d, legitimate, threshold, v.target.value)
      && v.distance.value == RootDistance(d, v.target.value)
      && forall l :: IsNear(d, legitimate, threshold, l) ==> v.distance.value <= RootDistance(d, l)
    else
      v == Verdict(false, None, None)
  }

  /** Whatever the iteration order, the flag and the reported distance are the same. */
  lemma VerdictIsOrderFree(d: string, legitimate: set<string>, keywords: set<string>, threshold: int,
                           v: Verdict, w: Verdict)
    requires IsVerdict(d, legitimate, keywords, threshold, v) && IsVerdict(d, legitimate, keywords, threshold, w)
    ensures v.isLookalike == w.isLookalike && v.distance == w.distance
    ensures v.isLookalike <==>
      && Registrable(d) !in legitimate
      && (SomeLabelHasKeyword(d, keywords) || SomeRootIsNear(d, legitimate, threshold))
  {
    hide RootDistance, Split, Registrable, HasKeyword, SomeLabelHasKeyword, SomeRootIsNear;
  }

  lemma ThreeLabels(x: string, y: string, z: string)
    requires !HasDot(x) && !HasDot(y) && !HasDot(z)
    ensures Split(x + "." + y + "." + z) == [x, y, z]
    ensures Registrable(x + "." + y + "." + z) == y + "." + z
  {
    hide Split;
    var labels := [x, y, z];
    JoinSplit(labels);
    assert labels[1..] == [y, z] && labels[1..][1..] == [z];
    assert Join([y, z]) == y + "." + z by { assert [y, z][1..] == [z]; }
    assert Join(labels) == x + "." + y + "." + z;
  }

  /** A domain listed as legitimate is cleared if it has at most two labels.  With more, being listed does not
      matter: it is cleared exactly when its last two labels are listed or nothing about it looks suspicious. */
  lemma ListedDomainIsClearedIff(d: string, legitimate: set<string>, keywords: set<string>, threshold: int, v: Verdict)
    requires d in legitimate && IsVerdict(d, legitimate, keywords, threshold, v)
    ensures !v.isLookalike <==>
      || |Split(d)| <= 2
      || Join(Split(d)[|Split(d)| - 2..]) in legitimate
      || (!SomeLabelHasKeyword(d, keywords) && !SomeRootIsNear(d, legitimate, threshold))
  {
    VerdictIsOrderFree(d, legitimate, keywords, threshold, v, v);
    hide IsVerdict, SomeLabelHasKeyword, SomeRootIsNear, Split;
  }

  /** So "mtn.com.gh" is flagged for containing the brand it belongs to. */
  lemma ListedDomainCanBeFlagged(legitimate: set<string>, keywords: set<string>)
    requires "com.gh" !in legitimate && "mtn" in keywords
    ensures forall threshold, v :: IsVerdict("mtn.com.gh", legitimate, keywords, threshold, v) ==> v.isLookalike
  {
    hide IsNear, Distance, Split, Registrable;
    ThreeLabels("mtn", "com", "gh");
    assert "mtn" + "." + "com" + "." + "gh" == "mtn.com.gh" && "com" + "." + "gh" == "com.gh";
    assert OccursAt("mtn", "mtn", 0);
    assert Contains(Split("mtn.com.gh")[0], "mtn");
    assert HasKeyword(Split("mtn.com.gh")[0], keywords);
  }

  /** One label against the keywords, in any order. */
  method FindKeyword(part: string, keywords: set<string>) returns (kw: Option<string>)
    ensures kw.Some? <==> HasKeyword(part, keywords)
    ensures kw.Some? ==> kw.value in keywords && Contains(part, kw.value)
  {
    var todo := keywords;
    while todo != {}
      invariant todo <= keywords
      invariant forall k :: k in keywords && k !in todo ==> !Contains(part, k)
      decreases |todo|
    {
      var k :| k in todo;
      if Contains(part, k) { return Some(k); }
      todo := todo - {k};
    }
    return None;
  }

  method DetectBrandLookalike(d: string, legitimate: set<string>, keywords: set<string>, threshold: int)
    returns (v: Verdict)
    ensures IsVerdict(d, legitimate, keywords, threshold, v)
  {
    var reg := Registrable(d);
    if reg in legitimate { return Verdict(false, None, None); }
    var labels := Split(d);
    for i := 0 to |labels|
      invariant forall k :: 0 <= k < i ==> !HasKeyword(labels[k], keywords)
    {
      var kw := FindKeyword(labels[i], keywords);
      if kw.Some? { return Verdict(true, kw, None); }
    }
    var closestTarget: Option<string> := None;
    var closest := threshold + 1;
    var todo := legitimate;
    while todo != {}
      invariant todo <= legitimate
      invariant closestTarget == None ==> closest == threshold + 1
      invariant closestTarget.Some? ==>
        IsNear(d, legitimate, threshold, closestTarget.value) && closest == RootDistance(d, closestTarget.value)
      invariant forall l :: l !in todo && IsNear(d, legitimate, threshold, l) ==>
        closestTarget.Some? && closest <= RootDistance(d, l)
      decreases |todo|
    {
      var legit :| legit in todo;
      var dist := Levenshtein(Root(reg), Root(legit), threshold);
      assert 0 < dist <= threshold ==> IsNear(d, legitimate, threshold, legit);
      if 0 < dist < closest {
        closest, closestTarget := dist, Some(legit);
      }
      todo := todo - {legit};
    }
    if closestTarget.Some? { return Verdict(true, closestTarget, Some(closest)); }
    return Verdict(false, None, None);
  }
}
