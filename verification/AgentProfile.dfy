/** Soft-OR composition of detector scores and the decaying per-agent risk profile. */
module AgentProfile {
  import opened Basics

  datatype Detection = Detection(kind: string, score: real)

  function Clamp(x: real): real { if x < 0.0 then 0.0 else if x > 1.0 then 1.0 else x }

  // ---------- Rounding to three digits ----------

  /** The nearest integer, the even one on a tie. */
  function RoundHalfEven(x: real): (n: int)
    ensures -0.5 <= x - n as real <= 0.5
    ensures x - n as real == 0.5 || x - n as real == -0.5 ==> n % 2 == 0
  {
    var below := x.Floor;
    var rest := x - below as real;
    if rest < 0.5 || (rest == 0.5 && below % 2 == 0) then below else below + 1
  }

  function Round3(x: real): real { RoundHalfEven(x * 1000.0) as real / 1000.0 }

  predicate IsThousandth(x: real) { (x * 1000.0).Floor as real == x * 1000.0 }

  /** Rounding is within half a thousandth, keeps order, and fixes every multiple of a thousandth. */
  lemma RoundFacts(x: real, y: real)
    requires x <= y
    ensures Round3(x) <= Round3(y)
    ensures -0.0005 <= Round3(x) - x <= 0.0005
    ensures IsThousandth(x) <==> Round3(x) == x
  {
    var a, b := RoundHalfEven(x * 1000.0), RoundHalfEven(y * 1000.0);
    assert x * 1000.0 <= y * 1000.0;
    assert a as real <= x * 1000.0 + 0.5 && y * 1000.0 - 0.5 <= b as real;
    assert a <= b + 1;
    if Round3(x) == x { assert a as real == x * 1000.0; }
  }

  // ---------- Soft-OR ----------

  function Times(p: real, q: real): real { p * q }

  lemma TimesAssoc(p: real, q: real, r: real)
    ensures Times(Times(p, q), r) == Times(p, Times(q, r))
    ensures Times(p, 1.0) == p && Times(p, q) == Times(q, p)
  {
    assert p * q * r == p * (q * r);
  }

  lemma TimesInUnit(p: real, q: real)
    requires 0.0 <= p <= 1.0 && 0.0 <= q <= 1.0
    ensures 0.0 <= Times(p, q) <= p && Times(p, q) <= q
  {
    TimesMonotone(p, p, q, 1.0);
    TimesMonotone(p, 1.0, q, q);
  }

  lemma TimesMonotone(p: real, p': real, q: real, q': real)
    requires 0.0 <= p <= p' && 0.0 <= q <= q'
    ensures 0.0 <= Times(p, q) <= Times(p', q')
  {
    assert p' * q' - p * q == p' * (q' - q) + q * (p' - p);
  }

  function Miss(d: Detection): (r: real)
    ensures 0.0 <= r <= 1.0
  {
    1.0 - Clamp(d.score)
  }

  /** The product of the complements. */
  function Misses(ds: seq<Detection>): (r: real) {
    if ds == [] then 1.0 else Times(Misses(ds[..|ds| - 1]), Miss(ds[|ds| - 1]))
  }

  lemma {:induction false} MissesInUnit(ds: seq<Detection>)
    ensures 0.0 <= Misses(ds) <= 1.0
  {
    hide Times, Miss;
    if ds != [] {
      MissesInUnit(ds[..|ds| - 1]);
      TimesInUnit(Misses(ds[..|ds| - 1]), Miss(ds[|ds| - 1]));
    }
  }

  function SoftOr(ds: seq<Detection>): real { 1.0 - Misses(ds) }

  lemma {:induction false} MissesConcat(a: seq<Detection>, b: seq<Detection>)
    ensures Misses(a + b) == Times(Misses(a), Misses(b))
  {
    hide Times, Miss;
    if b == [] {
      assert a + b == a;
      TimesAssoc(Misses(a), 1.0, 1.0);
    } else {
      assert (a + b)[..|a + b| - 1] == a + b[..|b| - 1];
      MissesConcat(a, b[..|b| - 1]);
      TimesAssoc(Misses(a), Misses(b[..|b| - 1]), Miss(b[|b| - 1]));
    }
  }

  lemma MissesOne(d: Detection)
    ensures Misses([d]) == Miss(d)
  {
    assert [d][..0] == [];
  }

  /** Taking one detection out of the middle. */
  lemma MissesSplit(a: seq<Detection>, d: Detection, b: seq<Detection>)
    ensures Misses(a + [d] + b) == Times(Misses(a + b), Miss(d))
  {
    hide Times, Miss, Misses;
    MissesConcat(a + [d], b);
    MissesConcat(a, [d]);
    MissesConcat(a, b);
    MissesOne(d);
    TimesAssoc(Misses(a), Miss(d), Misses(b));
    TimesAssoc(Misses(b), Miss(d), Misses(a));
    TimesAssoc(Misses(a), Misses(b), Miss(d));
  }

  lemma SameRest(a: seq<Detection>, d: Detection, l: seq<Detection>, r: seq<Detection>)
    requires multiset(a + [d]) == multiset(l + [d] + r)
    ensures multiset(a) == multiset(l + r)
  {
    assert multiset(a) == multiset(a + [d]) - multiset{d};
    assert multiset(l + r) == multiset(l + [d] + r) - multiset{d};
  }

  lemma Locate(b: seq<Detection>, d: Detection) returns (l: seq<Detection>, r: seq<Detection>)
    requires d in b
    ensures b == l + [d] + r
  {
    var i :| 0 <= i < |b| && b[i] == d;
    l, r := b[..i], b[i + 1..];
  }

  lemma {:induction false} MissesIgnoreOrder(a: seq<Detection>, b: seq<Detection>)
    requires multiset(a) == multiset(b)
    ensures Misses(a) == Misses(b)
  {
    hide Times, Miss, Misses;
    if a == [] {
      assert |multiset(b)| == 0;
    } else {
      var init, d := a[..|a| - 1], a[|a| - 1];
      assert a == init + [d];
      assert d in multiset(b);
      var l, r := Locate(b, d);
      SameRest(init, d, l, r);
      MissesIgnoreOrder(init, l + r);
      MissesSplit(l, d, r);
      MissesConcat(init, [d]);
      MissesOne(d);
    }
  }

  /** The order of the detections does not matter. */
  lemma SoftOrIgnoresOrder(a: seq<Detection>, b: seq<Detection>)
    requires multiset(a) == multiset(b)
    ensures SoftOr(a) == SoftOr(b)
  {
    MissesIgnoreOrder(a, b);
  }

  /** Scores stack: nothing gives 0, one detection its own score brought into [0,1], and two groups combine like the
      chance that at least one of two independent events happens. */
  lemma SoftOrStacks(a: seq<Detection>, b: seq<Detection>, d: Detection)
    ensures SoftOr([]) == 0.0
    ensures SoftOr([d]) == if d.score <= 0.0 then 0.0 else if d.score >= 1.0 then 1.0 else d.score
    ensures SoftOr(a + b) == SoftOr(a) + SoftOr(b) - SoftOr(a) * SoftOr(b)
  {
    NoMisses();
    hide Misses, Times;
    MissesOne(d);
    MissesConcat(a, b);
    EitherOf(Misses(a), Misses(b));
  }

  lemma NoMisses()
    ensures Misses([]) == 1.0
  {
  }

  lemma EitherOf(p: real, q: real)
    ensures 1.0 - Times(p, q) == (1.0 - p) + (1.0 - q) - (1.0 - p) * (1.0 - q)
  {
  }

  /** No detection exceeds the combination, which certainty in one of them forces to 1 and nothing else does. */
  lemma {:induction false} SoftOrDominates(ds: seq<Detection>)
    ensures forall d :: d in ds ==> Clamp(d.score) <= SoftOr(ds)
    ensures SoftOr(ds) == 1.0 <==> exists d :: d in ds && d.score >= 1.0
    ensures SoftOr(ds) == 0.0 <==> forall d :: d in ds ==> d.score <= 0.0
  {
    if ds != [] {
      var init, last := ds[..|ds| - 1], ds[|ds| - 1];
      SoftOrDominates(init);
      assert forall d :: d in ds <==> d in init || d == last;
      MissesInUnit(init);
      TimesInUnit(Misses(init), Miss(last));
      TimesExtremes(Misses(init), Miss(last));
    }
  }

  lemma TimesExtremes(p: real, q: real)
    requires 0.0 <= p <= 1.0 && 0.0 <= q <= 1.0
    ensures Times(p, q) == 0.0 <==> p == 0.0 || q == 0.0
    ensures Times(p, q) == 1.0 <==> p == 1.0 && q == 1.0
  {
    TimesInUnit(p, q);
    if p > 0.0 && q > 0.0 { assert p * q > 0.0; }
  }

  /** Higher scores never lower the combination, and neither does one more detection. */
  lemma {:induction false} SoftOrIsMonotone(a: seq<Detection>, b: seq<Detection>)
    requires |a| <= |b| && forall i :: 0 <= i < |a| ==> a[i].score <= b[i].score
    ensures SoftOr(a) <= SoftOr(b)
  {
    hide Times;
    if b != [] {
      var n := |b| - 1;
      MissesInUnit(b[..n]);
      if |a| < |b| {
        SoftOrIsMonotone(a, b[..n]);
        TimesInUnit(Misses(b[..n]), Miss(b[n]));
      } else {
        SoftOrIsMonotone(a[..n], b[..n]);
        TimesMonotone(Misses(b[..n]), Misses(a[..n]), Miss(b[n]), Miss(a[n]));
      }
    }
  }

  method CompositeAgentScore(detections: seq<Detection>) returns (r: real)
    ensures r == Round3(SoftOr(detections))
  {
    var p := 1.0;
    for i := 0 to |detections|
      invariant p == Misses(detections[..i])
    {
      assert detections[..i + 1][..i] == detections[..i];
      p := p * (1.0 - RealMax(0.0, RealMin(1.0, detections[i].score)));
    }
    assert detections[..|detections|] == detections;
    r := Round3(1.0 - p);
  }

  /** The reported composite is in [0,1] and at most half a thousandth below any score clamped into [0,1];
      scores that are whole thousandths are not undercut at all. */
  lemma CompositeDominates(ds: seq<Detection>, d: Detection)
    ensures 0.0 <= Round3(SoftOr(ds)) <= 1.0
    ensures d in ds ==> Clamp(d.score) - 0.0005 <= Round3(SoftOr(ds))
    ensures d in ds && IsThousandth(d.score) ==> Clamp(d.score) <= Round3(SoftOr(ds))
  {
    SoftOrDominates(ds);
    MissesInUnit(ds);
    RoundFacts(0.0, SoftOr(ds));
    RoundFacts(SoftOr(ds), 1.0);
    RoundFacts(1.0, 1.0);
    if d in ds { RoundFacts(Clamp(d.score), SoftOr(ds)); }
  }

  /** m is the largest of the scores, clamped into [0,1]. */
  ghost predicate IsLargest(ds: seq<Detection>, m: real) {
    (exists d :: d in ds && Clamp(d.score) == m) && forall d :: d in ds ==> Clamp(d.score) <= m
  }

  /** x, in thousandths, rounds to k rather than to k + 1. */
  predicate RoundsDownTo(x: real, k: int) { x < k as real + 0.5 || (x == k as real + 0.5 && k % 2 == 0) }

  /** Rounding x brings it below some m it was at least as large as. */
  lemma RoundBelowIff(x: real, m: real)
    requires m <= x
    ensures Round3(x) < m <==> !IsThousandth(m) && RoundsDownTo(x * 1000.0, (m * 1000.0).Floor)
  {
    var n, k := RoundHalfEven(x * 1000.0), (m * 1000.0).Floor;
    assert m * 1000.0 <= x * 1000.0;
    assert n >= k;
    assert n == k <==> RoundsDownTo(x * 1000.0, k);
    assert Round3(x) < m <==> n as real < m * 1000.0;
  }

  /** The composite falls below the largest score m exactly when m is no whole thousandth and the combination rounds
      down to the thousandth below m. */
  lemma UndercutIff(ds: seq<Detection>, m: real)
    requires IsLargest(ds, m)
    ensures Round3(SoftOr(ds)) < m <==> !IsThousandth(m) && RoundsDownTo(SoftOr(ds) * 1000.0, (m * 1000.0).Floor)
  {
    hide Round3, IsThousandth, RoundsDownTo, SoftOr;
    SoftOrDominates(ds);
    RoundBelowIff(SoftOr(ds), m);
  }

  // ---------- Decay ----------

  /** What scores are multiplied by when the profile was last seen at `last` and it is now `now`. */
  function Factor(last: int, now: int, rate: real): (r: real)
    ensures r >= 0.0
  {
    if last > 0 then RealMax(0.0, 1.0 - (now - last) as real / 3600000.0 * rate) else 1.0
  }

  /** n hours after the last pass a score has lost n times the hourly rate, and is gone from one over the rate on;
      a profile that was never seen does not decay. */
  lemma FactorByTheHour(last: int, n: int, now: int, rate: real)
    ensures last > 0 ==>
      Factor(last, last + n * 3600000, rate) == if n as real * rate <= 1.0 then 1.0 - n as real * rate else 0.0
    ensures last <= 0 ==> Factor(last, now, rate) == 1.0
  {
    assert (n * 3600000) as real / 3600000.0 == n as real;
  }

  /** Scores do not grow by decaying exactly when the clock did not go back. */
  lemma FactorAtMostOneIff(last: int, now: int, rate: real)
    requires rate > 0.0 && last > 0
    ensures Factor(last, now, rate) <= 1.0 <==> last <= now
  {
    var hours := (now - last) as real / 3600000.0;
    if last <= now {
      assert hours * rate >= 0.0;
    } else {
      assert (-hours) * rate > 0.0;
    }
  }

  lemma FactorInUnit(last: int, now: int, rate: real)
    requires rate >= 0.0 && last <= now
    ensures 0.0 <= Factor(last, now, rate) <= 1.0
  {
    if rate > 0.0 && last > 0 { FactorAtMostOneIff(last, now, rate); }
  }

  /** An update in the middle of a quiet period makes the score fall less; it makes no difference only if
      one of the parts is empty, nothing decays, or the score is gone after one of the parts. */
  lemma UpdatingMoreOftenDecaysLess(a: int, b: int, c: int, rate: real)
    requires 0 < a <= b <= c && rate >= 0.0
    ensures Factor(a, c, rate) <= Factor(a, b, rate) * Factor(b, c, rate)
    ensures Factor(a, c, rate) == Factor(a, b, rate) * Factor(b, c, rate) <==>
      a == b || b == c || rate == 0.0 || Factor(a, b, rate) == 0.0 || Factor(b, c, rate) == 0.0
  {
    var x, y := (b - a) as real / 3600000.0 * rate, (c - b) as real / 3600000.0 * rate;
    assert (c - a) as real / 3600000.0 * rate == x + y;
    assert x >= 0.0 && y >= 0.0;
    assert (1.0 - x) * (1.0 - y) == 1.0 - (x + y) + x * y;
    assert x * y >= 0.0;
    if x < 1.0 && y < 1.0 { PositiveProduct(1.0 - x, 1.0 - y); }
    if a < b && b < c && rate > 0.0 {
      PositiveProduct((b - a) as real / 3600000.0, rate);
      PositiveProduct((c - b) as real / 3600000.0, rate);
      PositiveProduct(x, y);
    }
  }

  lemma PositiveProduct(a: real, b: real)
    requires a > 0.0 && b > 0.0
    ensures a * b > 0.0
  {
  }

  // ---------- A profile over a run ----------

  datatype Snapshot = Snapshot(composite: real, lastSeen: int, scores: map<string, real>, txnCount: int)

  const Fresh := Snapshot(0.0, 0, map[], 0)

  /** One call of update: what was detected, how many transactions, and the time used. */
  datatype Pass = Pass(detections: seq<Detection>, txnCount: int, now: int)

  function Scaled(scores: map<string, real>, f: real): map<string, real> {
    map k | k in scores :: Times(scores[k], f)
  }

  /** A missing score reads as zero. */
  function ScoreOf(scores: map<string, real>, k: string): real { if k in scores then scores[k] else 0.0 }

  function Raised(scores: map<string, real>, d: Detection): map<string, real> {
    scores[d.kind := RealMax(ScoreOf(scores, d.kind), d.score)]
  }

  function RaisedBy(scores: map<string, real>, ds: seq<Detection>): map<string, real> {
    if ds == [] then scores else Raised(RaisedBy(scores, ds[..|ds| - 1]), ds[|ds| - 1])
  }

  function Advance(s: Snapshot, p: Pass, rate: real): Snapshot {
    var f := Factor(s.lastSeen, p.now, rate);
    Snapshot(
      RealMax(Times(s.composite, f), Round3(SoftOr(p.detections))), p.now,
      RaisedBy(Scaled(s.scores, f), p.detections), s.txnCount + p.txnCount)
  }

  function Run(h: seq<Pass>, rate: real): Snapshot {
    if h == [] then Fresh else Advance(Run(h[..|h| - 1], rate), h[|h| - 1], rate)
  }

  /** How much of what was seen in pass i is left after the whole run. */
  function Weight(h: seq<Pass>, i: nat, rate: real): (r: real)
    requires i < |h|
    ensures r >= 0.0
    decreases |h|
  {
    if i == |h| - 1 then 1.0
    else
      var w := Weight(h[..|h| - 1], i, rate);
      var f := Factor(h[|h| - 2].now, h[|h| - 1].now, rate);
      TimesNonnegative(w, f);
      Times(w, f)
  }

  lemma LastSeenIsLastPass(h: seq<Pass>, rate: real)
    requires h != []
    ensures Run(h, rate).lastSeen == h[|h| - 1].now
  {
  }

  ghost predicate Nonnegative(scores: map<string, real>) { forall j :: j in scores ==> scores[j] >= 0.0 }

  /** next is the larger of v and everything the detections say about pattern k. */
  ghost predicate IsRaise(ds: seq<Detection>, k: string, v: real, next: real) {
    && v <= next
    && (forall x :: Detection(k, x) in ds ==> x <= next)
    && (next == v || Detection(k, next) in ds)
  }

  lemma {:induction false} RaisedFacts(scores: map<string, real>, ds: seq<Detection>, k: string)
    requires Nonnegative(scores)
    ensures Nonnegative(RaisedBy(scores, ds))
    ensures IsRaise(ds, k, ScoreOf(scores, k), ScoreOf(RaisedBy(scores, ds), k))
    ensures k in RaisedBy(scores, ds) <==> k in scores || exists x :: Detection(k, x) in ds
  {
    if ds != [] {
      var init, last := ds[..|ds| - 1], ds[|ds| - 1];
      RaisedFacts(scores, init, k);
      RaisedFacts(scores, init, last.kind);
      assert ds == init + [last];
      assert forall x :: Detection(k, x) in ds <==> Detection(k, x) in init || Detection(k, x) == last;
      if k == last.kind { assert Detection(k, last.score) in ds; }
    }
  }

  lemma ScaledFacts(scores: map<string, real>, f: real, k: string)
    requires Nonnegative(scores) && f >= 0.0
    ensures Nonnegative(Scaled(scores, f))
    ensures ScoreOf(Scaled(scores, f), k) == Times(ScoreOf(scores, k), f)
  {
    forall j | j in scores ensures Times(scores[j], f) >= 0.0 { TimesNonnegative(scores[j], f); }
  }

  /** The transaction count of a run is the sum over its passes. */
  lemma {:induction false} TxnCountAdds(g: seq<Pass>, h: seq<Pass>, p: Pass, rate: real)
    ensures Run([], rate).txnCount == 0 && Run([p], rate).txnCount == p.txnCount
    ensures Run(g + h, rate).txnCount == Run(g, rate).txnCount + Run(h, rate).txnCount
  {
    hide Factor, RaisedBy, Scaled, Times, SoftOr, Round3;
    assert [p][..0] == [];
    if h == [] {
      assert g + h == g;
    } else {
      assert (g + h)[..|g + h| - 1] == g + h[..|h| - 1];
      TxnCountAdds(g, h[..|h| - 1], p, rate);
    }
  }

  // ---------- Scores are decayed peaks ----------

  /** v is the largest of zero and all values the passes give, each shrunk by the decay since its pass. */
  ghost predicate IsPeak(h: seq<Pass>, rate: real, gives: (Pass, real) -> bool, v: real) {
    && v >= 0.0
    && (forall i: nat, x :: i < |h| && gives(h[i], x) ==> Times(x, Weight(h, i, rate)) <= v)
    && (v == 0.0 || exists i: nat, x :: i < |h| && gives(h[i], x) && Times(x, Weight(h, i, rate)) == v)
  }

  ghost function Decay(h: seq<Pass>, p: Pass, rate: real): real { Factor(Run(h, rate).lastSeen, p.now, rate) }

  lemma WeightStep(h: seq<Pass>, p: Pass, i: nat, rate: real)
    requires i <= |h|
    ensures Weight(h + [p], i, rate) == if i == |h| then 1.0 else Times(Weight(h, i, rate), Decay(h, p, rate))
  {
    assert (h + [p])[..|h|] == h;
  }

  lemma PeakStep(h: seq<Pass>, p: Pass, rate: real, gives: (Pass, real) -> bool, v: real, next: real)
    requires IsPeak(h, rate, gives, v)
    requires next >= Times(v, Decay(h, p, rate)) && forall x :: gives(p, x) ==> x <= next
    requires next == Times(v, Decay(h, p, rate)) || gives(p, next)
    ensures IsPeak(h + [p], rate, gives, next)
  {
    hide Times, Weight, Decay, Run, Factor;
    var r, f := h + [p], Decay(h, p, rate);
    assert f >= 0.0 by { DecayNonnegative(h, p, rate); }
    TimesNonnegative(v, f);
    forall i: nat, x | i < |r| && gives(r[i], x) ensures Times(x, Weight(r, i, rate)) <= next {
      WeightStep(h, p, i, rate);
      TimesAssoc(x, 1.0, 1.0);
      if i < |h| {
        TimesAssoc(x, Weight(h, i, rate), f);
        TimesKeepsOrder(Times(x, Weight(h, i, rate)), v, f);
      }
    }
    if gives(p, next) {
      WeightStep(h, p, |h|, rate);
      TimesAssoc(next, 1.0, 1.0);
      assert gives(r[|h|], next);
    } else if v == 0.0 {
      ZeroTimes(f);
    } else {
      var i: nat, x :| i < |h| && gives(h[i], x) && Times(x, Weight(h, i, rate)) == v;
      WeightStep(h, p, i, rate);
      TimesAssoc(x, Weight(h, i, rate), f);
      assert gives(r[i], x);
    }
  }

  lemma DecayNonnegative(h: seq<Pass>, p: Pass, rate: real)
    ensures Decay(h, p, rate) >= 0.0
  {
  }

  lemma ZeroTimes(f: real)
    ensures Times(0.0, f) == 0.0
  {
  }

  lemma TimesNonnegative(a: real, b: real)
    requires a >= 0.0 && b >= 0.0
    ensures Times(a, b) >= 0.0
  {
  }

  lemma TimesKeepsOrder(a: real, b: real, f: real)
    requires a <= b && f >= 0.0
    ensures Times(a, f) <= Times(b, f)
  {
    assert b * f - a * f == (b - a) * f;
  }

  /** What a pass contributes to one pattern, and to the composite. */
  function GivesPattern(k: string): (Pass, real) -> bool {
    (p: Pass, x: real) => Detection(k, x) in p.detections
  }

  function GivesComposite(): (Pass, real) -> bool {
    (p: Pass, x: real) => x == Round3(SoftOr(p.detections))
  }

  /** For any clock and any scores, the composite and every pattern score are decayed peaks of the history. */
  lemma {:induction false} ScoresArePeaks(h: seq<Pass>, rate: real, k: string)
    ensures IsPeak(h, rate, GivesPattern(k), ScoreOf(Run(h, rate).scores, k))
    ensures IsPeak(h, rate, GivesComposite(), Run(h, rate).composite)
    ensures Nonnegative(Run(h, rate).scores)
  {
    hide IsPeak, Times, Scaled, RaisedBy, Round3, Factor;
    if h == [] {
      NoPeak(rate, GivesPattern(k));
      NoPeak(rate, GivesComposite());
    } else {
      var init, p := h[..|h| - 1], h[|h| - 1];
      assert h == init + [p];
      ScoresArePeaks(init, rate, k);
      var s, f := Run(init, rate), Decay(init, p, rate);
      ScaledFacts(s.scores, f, k);
      RaisedFacts(Scaled(s.scores, f), p.detections, k);
      PeakStep(init, p, rate, GivesPattern(k), ScoreOf(s.scores, k), ScoreOf(Run(h, rate).scores, k));
      PeakStep(init, p, rate, GivesComposite(), s.composite, Run(h, rate).composite);
    }
  }

  lemma NoPeak(rate: real, gives: (Pass, real) -> bool)
    ensures IsPeak([], rate, gives, 0.0)
  {
  }

  /** A pattern is listed from the first pass that reports it, whatever its score. */
  lemma {:induction false} ListedIffReported(h: seq<Pass>, rate: real, k: string)
    ensures k in Run(h, rate).scores <==> exists p, x :: p in h && Detection(k, x) in p.detections
  {
    hide IsPeak, Scaled, RaisedBy, Round3, Factor;
    if h != [] {
      var init, p := h[..|h| - 1], h[|h| - 1];
      assert h == init + [p];
      ListedIffReported(init, rate, k);
      ScoresArePeaks(init, rate, k);
      var s, f := Run(init, rate), Decay(init, p, rate);
      ScaledFacts(s.scores, f, k);
      RaisedFacts(Scaled(s.scores, f), p.detections, k);
      assert k in Scaled(s.scores, f) <==> k in s.scores by { ScaledKeys(s.scores, f); }
    }
  }

  lemma ScaledKeys(scores: map<string, real>, f: real)
    ensures Scaled(scores, f).Keys == scores.Keys
  {
  }

  // ---------- Runs on a sound clock ----------

  /** Times never go back and scores are probabilities. */
  ghost predicate Sound(h: seq<Pass>) {
    && (forall i, j :: 0 <= i < j < |h| ==> h[i].now <= h[j].now)
    && (forall p :: p in h ==> Probabilities(p.detections))
    && (h != [] ==> h[0].now >= 0)
  }

  ghost predicate Probabilities(ds: seq<Detection>) { forall d :: d in ds ==> 0.0 <= d.score <= 1.0 }

  /** A sound run, spelled out. */
  lemma SoundMeans(h: seq<Pass>)
    ensures Sound(h) <==>
      && (forall i, j :: 0 <= i < j < |h| ==> h[i].now <= h[j].now)
      && (forall p, d :: p in h && d in p.detections ==> 0.0 <= d.score && d.score <= 1.0)
      && (h != [] ==> 0 <= h[0].now)
  {
  }

  /** All scores reported for pattern k are whole thousandths. */
  ghost predicate Thousandths(ds: seq<Detection>, k: string) {
    forall x :: Detection(k, x) in ds ==> IsThousandth(x)
  }

  lemma SoundLast(h: seq<Pass>, p: Pass, rate: real)
    requires Sound(h + [p])
    ensures Sound(h) && Probabilities(p.detections)
    ensures 0.0 <= Decay(h, p, rate) && (rate >= 0.0 ==> Decay(h, p, rate) <= 1.0)
  {
    var r := h + [p];
    assert forall i :: 0 <= i < |h| ==> r[i] == h[i];
    assert p == r[|h|];
    assert forall q :: q in h || q == p ==> q in r;
    if rate >= 0.0 && h != [] {
      LastSeenIsLastPass(h, rate);
      FactorInUnit(Run(h, rate).lastSeen, p.now, rate);
    }
  }

  /** Everything is a probability, and the composite is below a pattern's score by no more than its own rounding. */
  lemma {:induction false} SoundRuns(h: seq<Pass>, rate: real, k: string)
    requires rate >= 0.0 && Sound(h)
    ensures 0.0 <= Run(h, rate).composite <= 1.0
    ensures 0.0 <= ScoreOf(Run(h, rate).scores, k) <= 1.0
    ensures ScoreOf(Run(h, rate).scores, k) - 0.0005 <= Run(h, rate).composite
    ensures (forall p :: p in h ==> Thousandths(p.detections, k)) ==>
              ScoreOf(Run(h, rate).scores, k) <= Run(h, rate).composite
  {
    hide Times, Scaled, RaisedBy, Round3, Factor, Thousandths, Probabilities, SoftOr, Sound, IsPeak, IsRaise;
    if h != [] {
      var init, p := h[..|h| - 1], h[|h| - 1];
      assert h == init + [p];
      SoundLast(init, p, rate);
      SoundRuns(init, rate, k);
      ScoresArePeaks(init, rate, k);
      var s, f := Run(init, rate), Decay(init, p, rate);
      ScaledFacts(s.scores, f, k);
      RaisedFacts(Scaled(s.scores, f), p.detections, k);
      SoundStep(p.detections, k, ScoreOf(s.scores, k), ScoreOf(Run(h, rate).scores, k), s.composite, f);
    }
  }

  /** One pass keeps the bounds. */
  lemma SoundStep(ds: seq<Detection>, k: string, v: real, next: real, composite: real, f: real)
    requires 0.0 <= f <= 1.0 && 0.0 <= v <= 1.0 && 0.0 <= composite <= 1.0 && v - 0.0005 <= composite
    requires Probabilities(ds) && IsRaise(ds, k, Times(v, f), next)
    ensures var c := RealMax(Times(composite, f), Round3(SoftOr(ds)));
      && 0.0 <= c <= 1.0 && 0.0 <= next <= 1.0 && next - 0.0005 <= c
      && (v <= composite && Thousandths(ds, k) ==> next <= c)
  {
    hide Times, Round3, IsThousandth, SoftOr;
    TimesInUnit(v, f);
    TimesInUnit(composite, f);
    TimesKeepsGap(v, composite, f);
    CompositeDominates(ds, Detection(k, next));
  }

  lemma TimesKeepsGap(a: real, b: real, f: real)
    requires 0.0 <= f <= 1.0 && a - 0.0005 <= b
    ensures Times(a, f) - 0.0005 <= Times(b, f)
    ensures a <= b ==> Times(a, f) <= Times(b, f)
  {
    if a <= b { TimesNonnegative(b - a, f); }
    assert b * f - a * f == (b - a) * f;
    TimesNonnegative(b - a + 0.0005, f);
    assert (b - a + 0.0005) * f == (b - a) * f + 0.0005 * f;
  }

  // ---------- Exactly which clocks are sound ----------

  ghost predicate At(h: seq<Pass>, readings: seq<int>) {
    |h| == |readings| && forall i :: 0 <= i < |h| ==> h[i].now == readings[i]
  }

  ghost predicate AllProbabilities(h: seq<Pass>) { forall i :: 0 <= i < |h| ==> Probabilities(h[i].detections) }

  /** The reading at i is earlier than a positive one before it. */
  predicate StepsBack(readings: seq<int>, i: nat) {
    0 < i < |readings| && 0 < readings[i - 1] && readings[i] < readings[i - 1]
  }

  ghost predicate NeverAboveOne(h: seq<Pass>, rate: real) {
    forall n: nat :: n <= |h| ==> Run(h[..n], rate).composite <= 1.0
  }

  /** On given clock readings no sequence of passes can lift the composite past 1 exactly when the readings never
      step back from a positive one, or nothing decays. */
  lemma NeverAboveOneIff(readings: seq<int>, rate: real)
    requires rate >= 0.0
    ensures (forall h :: At(h, readings) && AllProbabilities(h) ==> NeverAboveOne(h, rate)) <==>
      rate == 0.0 || forall i :: !StepsBack(readings, i)
  {
    if rate == 0.0 || forall i :: !StepsBack(readings, i) {
      forall h, n: nat | At(h, readings) && AllProbabilities(h) && n <= |h| ensures Run(h[..n], rate).composite <= 1.0 {
        StaysBelowOne(h, readings, rate, n);
      }
    } else {
      var i :| StepsBack(readings, i);
      StepBackInflates(readings, rate, i);
    }
  }

  lemma {:induction false} StaysBelowOne(h: seq<Pass>, readings: seq<int>, rate: real, n: nat)
    requires rate >= 0.0 && (rate == 0.0 || forall i :: !StepsBack(readings, i))
    requires At(h, readings) && AllProbabilities(h) && n <= |h|
    ensures 0.0 <= Run(h[..n], rate).composite <= 1.0
  {
    hide Times, Factor, Scaled, RaisedBy, Round3, SoftOr, Run;
    if n == 0 {
      RunStep([], Pass([], 0, 0), rate);
      assert h[..0] == [];
    } else {
      var p, init := h[n - 1], h[..n - 1];
      assert h[..n] == init + [p];
      StaysBelowOne(h, readings, rate, n - 1);
      RunStep(init, p, rate);
      FactorOnReadings(h, readings, rate, n - 1);
      TimesInUnit(Run(init, rate).composite, Decay(init, p, rate));
      CompositeDominates(p.detections, Detection("", 0.0));
    }
  }

  lemma FactorOnReadings(h: seq<Pass>, readings: seq<int>, rate: real, n: nat)
    requires rate >= 0.0 && (rate == 0.0 || forall i :: !StepsBack(readings, i))
    requires At(h, readings) && n < |h|
    ensures 0.0 <= Decay(h[..n], h[n], rate) <= 1.0
  {
    if n > 0 {
      LastSeenIsLastPass(h[..n], rate);
      if rate > 0.0 && readings[n - 1] > 0 {
        assert !StepsBack(readings, n);
        FactorAtMostOneIff(readings[n - 1], readings[n], rate);
      }
    }
  }

  /** Report certainty before the step back and nothing at any other time. */
  function OneReport(readings: seq<int>, at: int): seq<Pass> {
    seq(|readings|, j requires 0 <= j < |readings| =>
      Pass(if j == at then [Detection("agent.commission_farming", 1.0)] else [], 0, readings[j]))
  }

  lemma StepBackInflates(readings: seq<int>, rate: real, i: nat)
    requires rate > 0.0 && StepsBack(readings, i)
    ensures var h := OneReport(readings, i - 1);
      At(h, readings) && AllProbabilities(h) && !NeverAboveOne(h, rate)
  {
    hide Times, Factor, Scaled, RaisedBy, Round3, SoftOr, Run;
    var h := OneReport(readings, i - 1);
    assert h[..i] == h[..i - 1] + [h[i - 1]] && h[..i + 1] == h[..i] + [h[i]];
    RunStep(h[..i - 1], h[i - 1], rate);
    RunStep(h[..i], h[i], rate);
    var d := Detection("agent.commission_farming", 1.0);
    CompositeDominates([d], d);
    OneIsThousandth();
    var c := Run(h[..i], rate).composite;
    assert c >= 1.0;
    FactorAtMostOneIff(readings[i - 1], readings[i], rate);
    FactorGrows(c, Decay(h[..i], h[i], rate));
    assert Run(h[..i + 1], rate).composite > 1.0;
  }

  lemma OneIsThousandth()
    ensures IsThousandth(1.0)
  {
  }

  lemma FactorGrows(c: real, f: real)
    requires c >= 1.0 && f > 1.0
    ensures Times(c, f) > 1.0
  {
    TimesNonnegative(c - 1.0, f);
    assert c * f == (c - 1.0) * f + f;
  }

  /** Rounding can put the composite below a pattern's score. */
  lemma RoundingCanUndercut()
    ensures exists h: seq<Pass>, k: string ::
      Sound(h) && ScoreOf(Run(h, 0.1).scores, k) > Run(h, 0.1).composite
  {
    var d := Detection("agent.float_manipulation", 0.6004);
    var h := [Pass([d], 1, 1)];
    MissesOne(d);
    assert h[..0] == [];
    assert [d][..0] == [];
    RoundFacts(0.6, 0.6);
    assert RoundHalfEven(600.4) == 600;
    assert Run(h, 0.1) == Advance(Fresh, h[0], 0.1);
    assert Scaled(map[], 1.0) == map[];
    assert RaisedBy(map[], [d]) == Raised(map[], d);
    assert ScoreOf(Run(h, 0.1).scores, d.kind) == 0.6004;
    assert Run(h, 0.1).composite == 0.6;
  }

  /** A clock that goes back inflates the composite past 1. */
  lemma ClockBackInflates()
    ensures exists h: seq<Pass> :: |h| == 2 && 0 < h[1].now < h[0].now && Run(h, 0.1).composite > 1.0
  {
    var d := Detection("agent.commission_farming", 0.99);
    var h := [Pass([d], 1, 7200001), Pass([], 0, 1)];
    MissesOne(d);
    assert RoundHalfEven(990.0) == 990;
    assert h[..1] == [h[0]] && h[..1][..0] == [];
    assert Run(h[..1], 0.1) == Advance(Fresh, h[0], 0.1);
    assert Factor(7200001, 1, 0.1) == 1.2;
  }

  // ---------- The store ----------

  class AgentProfile {
    const agentId: string
    var composite: real
    var lastSeen: int
    var scores: map<string, real>
    var txnCount: int

    constructor (agentId: string)
      ensures this.agentId == agentId && View() == Fresh
    {
      this.agentId := agentId;
      composite, lastSeen, scores, txnCount := 0.0, 0, map[], 0;
    }

    function View(): Snapshot
      reads this
    {
      Snapshot(composite, lastSeen, scores, txnCount)
    }
  }

  class ProfileStore {
    const decayPerHour: real
    var profiles: map<string, AgentProfile>
    ghost var history: map<string, seq<Pass>>

    constructor (decayPerHour: real)
      ensures Valid() && history == map[] && this.decayPerHour == decayPerHour
    {
      this.decayPerHour := decayPerHour;
      profiles, history := map[], map[];
    }

    /** Each agent has its own profile object, and it holds what its history amounts to. */
    ghost predicate Valid()
      reads this, profiles.Values
    {
      && profiles.Keys == history.Keys
      && forall id :: id in profiles ==>
           profiles[id].agentId == id && profiles[id].View() == Run(history[id], decayPerHour)
    }

    ghost function History(id: string): seq<Pass>
      reads this
    {
      if id in history then history[id] else []
    }

    /** Fold one detector pass into the agent's profile; a missing or zero time means the clock. */
    method Update(agentId: string, detections: seq<Detection>, txnCount: int, nowMs: Option<int>, clock: int)
      returns (profile: AgentProfile)
      requires Valid()
      modifies this, if agentId in profiles then {profiles[agentId]} else {}
      ensures Valid()
      ensures var now := if nowMs.Some? && nowMs.value != 0 then nowMs.value else clock;
        history == old(history)[agentId := old(History(agentId)) + [Pass(detections, txnCount, now)]]
      ensures agentId in profiles && profiles[agentId] == profile
      ensures agentId in old(profiles) ==> profile == old(profiles)[agentId]
      ensures agentId !in old(profiles) ==> fresh(profile)
      ensures forall id :: id != agentId ==>
        (id in profiles <==> id in old(profiles)) && (id in profiles ==> profiles[id] == old(profiles)[id])
    {
      hide Run, Advance;
      var now := if nowMs.Some? && nowMs.value != 0 then nowMs.value else clock;
      ghost var p := Pass(detections, txnCount, now);
      RunStep(History(agentId), p, decayPerHour);
      if agentId in profiles {
        profile := profiles[agentId];
      } else {
        profile := new AgentProfile(agentId);
        profiles := profiles[agentId := profile];
      }
      Absorb(profile, detections, txnCount, now, decayPerHour);
      history := history[agentId := History(agentId) + [p]];
    }
  }

  /** Decay, take in the detections, recompute the composite and stamp the time. */
  method Absorb(profile: AgentProfile, detections: seq<Detection>, txnCount: int, now: int, rate: real)
    modifies profile
    ensures profile.View() == Advance(old(profile.View()), Pass(detections, txnCount, now), rate)
  {
    hide Factor, RaisedBy, Scaled, Times, SoftOr, Round3;
    DecayProfile(profile, now, rate);
    RaiseScores(profile, detections);
    var score := CompositeAgentScore(detections);
    profile.composite := RealMax(profile.composite, score);
    profile.lastSeen := now;
    profile.txnCount := profile.txnCount + txnCount;
  }

  /** Keep the higher of the old and the new score, detection by detection. */
  method RaiseScores(profile: AgentProfile, detections: seq<Detection>)
    modifies profile
    ensures profile.View() == old(profile.View()).(scores := RaisedBy(old(profile.scores), detections))
  {
    for i := 0 to |detections|
      invariant profile.View() == old(profile.View()).(scores := RaisedBy(old(profile.scores), detections[..i]))
    {
      assert detections[..i + 1][..i] == detections[..i];
      var d := detections[i];
      profile.scores := profile.scores[d.kind := RealMax(ScoreOf(profile.scores, d.kind), d.score)];
    }
    assert detections[..|detections|] == detections;
  }

  lemma RunStep(h: seq<Pass>, p: Pass, rate: real)
    ensures Run([], rate) == Fresh
    ensures Run(h + [p], rate) == Advance(Run(h, rate), p, rate)
  {
    assert (h + [p])[..|h|] == h;
  }

  /** Multiply the composite and, key by key, every pattern score. */
  method DecayProfile(profile: AgentProfile, now: int, rate: real)
    modifies profile
    ensures var f := Factor(old(profile.lastSeen), now, rate);
      profile.View() == old(profile.View()).(composite := Times(old(profile.composite), f), scores := Scaled(old(profile.scores), f))
  {
    hide Times;
    ghost var was := profile.scores;
    if profile.lastSeen > 0 {
      var hours := (now - profile.lastSeen) as real / 3600000.0;
      var decay := RealMax(0.0, 1.0 - hours * rate);
      assert decay == Factor(profile.lastSeen, now, rate);
      profile.composite := Times(profile.composite, decay);
      var todo := profile.scores.Keys;
      while todo != {}
        invariant todo <= was.Keys
        invariant profile.View() == old(profile.View()).(
            composite := Times(old(profile.composite), decay), scores := PartlyScaled(was, todo, decay))
      {
        var k :| k in todo;
        profile.scores := profile.scores[k := Times(profile.scores[k], decay)];
        todo := todo - {k};
      }
      assert profile.scores == Scaled(was, decay);
    } else {
      forall k | k in was ensures Times(was[k], 1.0) == was[k] { TimesAssoc(was[k], 1.0, 1.0); }
      TimesAssoc(profile.composite, 1.0, 1.0);
      assert profile.scores == Scaled(was, 1.0);
    }
  }

  /** Everything but the keys still to do. */
  ghost function PartlyScaled(scores: map<string, real>, todo: set<string>, f: real): map<string, real> {
    map k | k in scores :: if k in todo then scores[k] else Times(scores[k], f)
  }
}
