/** Mule chains: a depth-first search over time-ordered transfers, with the path pushed and popped in place. */
module MuleChains {
  import opened Basics
  import opened GraphIndex

  /** The search's test on a hop after one at time last; 0 also stands for "no hop yet". */
  predicate HopOk(last: int, ts: int, windowMs: int) {
    last == 0 || last <= ts <= last + windowMs
  }

  predicate IsSent(e: Edge) { e.kind == "SENT" }

  ghost predicate Distinct(p: seq<string>) {
    forall i, j :: 0 <= i < j < |p| ==> p[i] != p[j]
  }

  /** The transfers es realise the path p: hop k goes from p[k] to p[k + 1], and follows the previous hop in time. */
  ghost predicate Witnesses(edges: seq<Edge>, p: seq<string>, es: seq<Edge>, windowMs: int) {
    && |es| == |p| - 1
    && (forall k :: 0 <= k < |es| ==> es[k] in edges && IsSent(es[k]) && es[k].srcId == p[k] && es[k].dstId == p[k + 1])
    && (forall k :: 0 < k < |es| ==> HopOk(es[k - 1].ts, es[k].ts, windowMs))
  }

  datatype Limits = Limits(minLength: int, maxLength: int, windowMs: int)

  /** A simple path from start, of admissible length, that some transfers realise. */
  ghost predicate IsChain(edges: seq<Edge>, l: Limits, start: string, p: seq<string>) {
    && p != [] && p[0] == start && Distinct(p)
    && l.minLength <= |p| && (|p| <= l.maxLength || |p| == 1)
    && exists es :: Witnesses(edges, p, es, l.windowMs)
  }

  // ---------- The search, one hop at a time ----------

  /** p continues path, whose last hop was at time last, along transfers in edges. */
  ghost predicate Continues(edges: seq<Edge>, l: Limits, path: seq<string>, last: int, p: seq<string>)
    requires path != []
    decreases |p| - |path|
  {
    p == path || (|path| < |p| && exists e :: Hop(edges, l, path, last, e) && Continues(edges, l, path + [e.dstId], e.ts, p))
  }

  ghost predicate Hop(edges: seq<Edge>, l: Limits, path: seq<string>, last: int, e: Edge)
    requires path != []
  {
    && e in edges && IsSent(e) && e.srcId == path[|path| - 1]
    && e.dstId !in path && HopOk(last, e.ts, l.windowMs)
  }

  /** What the search records from here on. */
  ghost predicate Records(edges: seq<Edge>, l: Limits, path: seq<string>, last: int, p: seq<string>)
    requires path != []
  {
    Continues(edges, l, path, last, p) && l.minLength <= |p| && (|p| <= l.maxLength || p == path)
  }

  ghost predicate RecordsVia(edges: seq<Edge>, l: Limits, path: seq<string>, last: int, e: Edge, p: seq<string>)
    requires path != []
  {
    Hop(edges, l, path, last, e) && Records(edges, l, path + [e.dstId], e.ts, p)
  }

  lemma {:induction false} ContinuesExtends(edges: seq<Edge>, l: Limits, path: seq<string>, last: int, p: seq<string>)
    requires path != [] && Continues(edges, l, path, last, p)
    ensures path <= p
    decreases |p| - |path|
  {
    if p != path {
      var e :| Hop(edges, l, path, last, e) && Continues(edges, l, path + [e.dstId], e.ts, p);
      ContinuesExtends(edges, l, path + [e.dstId], e.ts, p);
    }
  }

  lemma RecordsStep(edges: seq<Edge>, l: Limits, path: seq<string>, last: int, p: seq<string>)
    requires path != []
    ensures |path| >= l.maxLength ==> (Records(edges, l, path, last, p) <==> p == path && l.minLength <= |path|)
    ensures |path| < l.maxLength ==>
      (Records(edges, l, path, last, p) <==>
        (p == path && l.minLength <= |path|) || exists e :: RecordsVia(edges, l, path, last, e, p))
  {
    if Continues(edges, l, path, last, p) && p != path {
      var e :| Hop(edges, l, path, last, e) && Continues(edges, l, path + [e.dstId], e.ts, p);
      ContinuesExtends(edges, l, path + [e.dstId], e.ts, p);
      assert Records(edges, l, path, last, p) && |path| < l.maxLength ==> RecordsVia(edges, l, path, last, e, p);
    }
    if |path| < l.maxLength {
      forall e | RecordsVia(edges, l, path, last, e, p) ensures Records(edges, l, path, last, p) {
        ContinuesExtends(edges, l, path + [e.dstId], e.ts, p);
      }
    }
  }

  // ---------- The search and the declarative definition agree ----------

  /** es realise the continuation of path to p. */
  ghost predicate Tail(edges: seq<Edge>, path: seq<string>, last: int, p: seq<string>, es: seq<Edge>, windowMs: int) {
    && |es| == |p| - |path| && path != [] && path <= p
    && (forall k :: 0 <= k < |es| ==> es[k] in edges && IsSent(es[k]))
    && (forall k :: 0 <= k < |es| ==> es[k].srcId == p[|path| - 1 + k] && es[k].dstId == p[|path| + k])
    && (es != [] ==> HopOk(last, es[0].ts, windowMs))
    && (forall k :: 0 < k < |es| ==> HopOk(es[k - 1].ts, es[k].ts, windowMs))
  }

  lemma {:induction false} SearchIsSound(edges: seq<Edge>, l: Limits, path: seq<string>, last: int, p: seq<string>)
    returns (es: seq<Edge>)
    requires path != [] && Distinct(path) && Continues(edges, l, path, last, p)
    ensures Distinct(p) && Tail(edges, path, last, p, es, l.windowMs)
    decreases |p| - |path|
  {
    if p == path {
      assert Tail(edges, path, last, p, [], l.windowMs);
      return [];
    }
    hide Tail;
    var e :| Hop(edges, l, path, last, e) && Continues(edges, l, path + [e.dstId], e.ts, p);
    assert Distinct(path + [e.dstId]);
    var rest := SearchIsSound(edges, l, path + [e.dstId], e.ts, p);
    TailCons(edges, l, path, last, p, e, rest);
    es := [e] + rest;
  }

  lemma TailCons(edges: seq<Edge>, l: Limits, path: seq<string>, last: int, p: seq<string>, e: Edge, rest: seq<Edge>)
    requires path != [] && Hop(edges, l, path, last, e) && Tail(edges, path + [e.dstId], e.ts, p, rest, l.windowMs)
    ensures Tail(edges, path, last, p, [e] + rest, l.windowMs)
  {
    var es, next := [e] + rest, path + [e.dstId];
    assert p[..|next|] == next;
    assert p[|path| - 1] == next[|path| - 1] == path[|path| - 1] && p[|path|] == next[|path|] == e.dstId;
    forall k | 0 <= k < |es| ensures es[k].srcId == p[|path| - 1 + k] && es[k].dstId == p[|path| + k] {
      assert k > 0 ==> es[k] == rest[k - 1];
    }
    forall k | 0 < k < |es| ensures HopOk(es[k - 1].ts, es[k].ts, l.windowMs) {
      assert es[k] == rest[k - 1] && (k > 1 ==> es[k - 1] == rest[k - 2]);
    }
  }

  lemma {:induction false} SearchIsComplete(edges: seq<Edge>, l: Limits, path: seq<string>, last: int, p: seq<string>, es: seq<Edge>)
    requires Distinct(p) && Tail(edges, path, last, p, es, l.windowMs)
    ensures Continues(edges, l, path, last, p)
    decreases |es|
  {
    if es != [] {
      var e := es[0];
      var next := path + [e.dstId];
      assert p[|path| - 1] == path[|path| - 1] && p[|path|] == e.dstId;
      assert next <= p;
      forall i | 0 <= i < |path| ensures path[i] != e.dstId { assert p[i] == path[i]; }
      assert Hop(edges, l, path, last, e);
      assert Tail(edges, next, e.ts, p, es[1..], l.windowMs) by {
        forall k | 0 <= k < |es| - 1
          ensures es[1..][k] == es[k + 1] && es[1..][k].srcId == p[|next| - 1 + k] && es[1..][k].dstId == p[|next| + k] {}
      }
      SearchIsComplete(edges, l, next, e.ts, p, es[1..]);
    }
  }

  /** For every graph and every start: the search records exactly the chains. */
  lemma SearchFindsChains(edges: seq<Edge>, l: Limits, start: string, p: seq<string>)
    ensures Records(edges, l, [start], 0, p) <==> IsChain(edges, l, start, p)
  {
    if Records(edges, l, [start], 0, p) {
      ContinuesExtends(edges, l, [start], 0, p);
      var es := SearchIsSound(edges, l, [start], 0, p);
      assert Witnesses(edges, p, es, l.windowMs);
      assert p == [start] ==> |p| == 1;
    }
    if IsChain(edges, l, start, p) {
      var es :| Witnesses(edges, p, es, l.windowMs);
      assert Tail(edges, [start], 0, p, es, l.windowMs);
      SearchIsComplete(edges, l, [start], 0, p, es);
      assert |p| == 1 ==> p == [start];
    }
  }

  // ---------- Time order ----------

  /** Each transfer is no earlier than the one before it and within the window of it. */
  ghost predicate InTimeOrder(es: seq<Edge>, windowMs: int) {
    forall k :: 0 < k < |es| ==> es[k - 1].ts <= es[k].ts <= es[k - 1].ts + windowMs
  }

  /** Two transfers through three distinct wallets. */
  ghost predicate Through(edges: seq<Edge>, e: Edge, f: Edge) {
    && e in edges && IsSent(e) && f in edges && IsSent(f) && e.dstId == f.srcId
    && e.srcId != e.dstId && e.dstId != f.dstId && e.srcId != f.dstId
  }

  /** A transfer at time 0 can be followed by one outside its window. */
  ghost predicate ZeroHop(edges: seq<Edge>, windowMs: int, e: Edge, f: Edge) {
    Through(edges, e, f) && e.ts == 0 && !(0 <= f.ts <= windowMs)
  }

  ghost predicate NoZeroHop(edges: seq<Edge>, windowMs: int) {
    forall e, f :: !ZeroHop(edges, windowMs, e, f)
  }

  lemma WitnessesAreThrough(edges: seq<Edge>, p: seq<string>, es: seq<Edge>, windowMs: int, k: nat)
    requires Distinct(p) && Witnesses(edges, p, es, windowMs) && 0 < k < |es|
    ensures Through(edges, es[k - 1], es[k]) && HopOk(es[k - 1].ts, es[k].ts, windowMs)
  {
    assert p[k - 1] != p[k] && p[k] != p[k + 1] && p[k - 1] != p[k + 1];
  }

  /** The wallets of two consecutive transfers. */
  function PathOf(e: Edge, f: Edge): seq<string> { [e.srcId, e.dstId, f.dstId] }

  lemma ThroughIsChain(edges: seq<Edge>, l: Limits, e: Edge, f: Edge)
    requires Through(edges, e, f) && HopOk(e.ts, f.ts, l.windowMs)
    ensures Distinct(PathOf(e, f)) && Witnesses(edges, PathOf(e, f), [e, f], l.windowMs)
    ensures l.minLength <= 3 <= l.maxLength ==> IsChain(edges, l, e.srcId, PathOf(e, f))
  {
    assert [e, f][0] == e && [e, f][1] == f;
    assert Witnesses(edges, PathOf(e, f), [e, f], l.windowMs);
  }

  /** Every witness of every simple path is in time order exactly when no hop at time 0 leads out of the window. */
  lemma OrderedIff(edges: seq<Edge>, windowMs: int)
    ensures NoZeroHop(edges, windowMs) <==>
      forall p, es :: Distinct(p) && Witnesses(edges, p, es, windowMs) ==> InTimeOrder(es, windowMs)
  {
    hide Through;
    if NoZeroHop(edges, windowMs) {
      forall p, es | Distinct(p) && Witnesses(edges, p, es, windowMs) ensures InTimeOrder(es, windowMs) {
        WitnessInOrder(edges, p, es, windowMs);
      }
    } else {
      var e, f :| ZeroHop(edges, windowMs, e, f);
      ThroughIsChain(edges, Limits(3, 3, windowMs), e, f);
      OutOfOrder(edges, windowMs, e, f);
    }
  }

  lemma WitnessInOrder(edges: seq<Edge>, p: seq<string>, es: seq<Edge>, windowMs: int)
    requires NoZeroHop(edges, windowMs) && Distinct(p) && Witnesses(edges, p, es, windowMs)
    ensures InTimeOrder(es, windowMs)
  {
    forall k | 0 < k < |es| ensures es[k - 1].ts <= es[k].ts <= es[k - 1].ts + windowMs {
      WitnessesAreThrough(edges, p, es, windowMs, k);
      assert !ZeroHop(edges, windowMs, es[k - 1], es[k]);
    }
  }

  lemma OutOfOrder(edges: seq<Edge>, windowMs: int, e: Edge, f: Edge)
    requires ZeroHop(edges, windowMs, e, f)
    ensures !InTimeOrder([e, f], windowMs)
  {
    assert [e, f][0] == e && [e, f][1] == f;
  }

  /** The same for the chains that are reported, whenever three wallets are an admissible length. */
  lemma ReportedChainsOrderedIff(edges: seq<Edge>, l: Limits)
    requires l.minLength <= 3 <= l.maxLength
    ensures NoZeroHop(edges, l.windowMs) <==>
      forall start, p, es :: IsChain(edges, l, start, p) && Witnesses(edges, p, es, l.windowMs) ==> InTimeOrder(es, l.windowMs)
  {
    hide Through;
    if NoZeroHop(edges, l.windowMs) {
      forall start, p, es | IsChain(edges, l, start, p) && Witnesses(edges, p, es, l.windowMs)
        ensures InTimeOrder(es, l.windowMs)
      {
        WitnessInOrder(edges, p, es, l.windowMs);
      }
    } else {
      var e, f :| ZeroHop(edges, l.windowMs, e, f);
      ThroughIsChain(edges, l, e, f);
      OutOfOrder(edges, l.windowMs, e, f);
    }
  }

  /** A hop at time 0 switches the check off: here the second transfer precedes the first by a second. */
  lemma ZeroTimestampDisablesOrder(l: Limits)
    requires l.minLength <= 3 <= l.maxLength
    ensures var edges := [Sent("a", "b", 0, 0), Sent("b", "c", -1000, 0)];
      IsChain(edges, l, "a", ["a", "b", "c"]) && !NoZeroHop(edges, l.windowMs)
  {
    var e, f := Sent("a", "b", 0, 0), Sent("b", "c", -1000, 0);
    var edges := [e, f];
    assert e == edges[0] && f == edges[1];
    ThroughIsChain(edges, l, e, f);
    assert ZeroHop(edges, l.windowMs, e, f);
  }

  function Sent(a: string, b: string, ts: int, amount: int): Edge {
    Edge("SENT", "Wallet", a, "Wallet", b, ts, amount)
  }

  // ---------- Prefixes ----------

  /** Chains are closed under prefixes, so the result keeps every long enough prefix of every chain it reports. */
  lemma PrefixesAreChains(edges: seq<Edge>, l: Limits, start: string, p: seq<string>, n: nat)
    requires IsChain(edges, l, start, p) && 0 < n <= |p| && l.minLength <= n
    ensures IsChain(edges, l, start, p[..n])
  {
    var es :| Witnesses(edges, p, es, l.windowMs);
    assert Witnesses(edges, p[..n], es[..n - 1], l.windowMs);
  }

  /** No element is a strict prefix of another. */
  ghost predicate PrefixFree(s: seq<seq<string>>) {
    forall p, q :: p in s && q in s && p <= q ==> p == q
  }

  /** What the search reports is prefix-free exactly when it reports nothing beyond the minimum length. */
  lemma PrefixFreeIff(edges: seq<Edge>, l: Limits, start: string, keep: seq<seq<string>>)
    requires forall p :: p in keep <==> IsChain(edges, l, start, p)
    ensures PrefixFree(keep) <==> forall p :: p in keep ==> |p| <= Max(1, l.minLength)
  {
    hide IsChain;
    forall p | p in keep ensures 1 <= |p| && l.minLength <= |p| { ChainLength(edges, l, start, p); }
    var n := Max(1, l.minLength);
    if PrefixFree(keep) {
      forall p | p in keep ensures |p| <= n {
        PrefixesAreChains(edges, l, start, p, n);
        assert p[..n] in keep && p[..n] <= p;
      }
    }
  }

  lemma ChainLength(edges: seq<Edge>, l: Limits, start: string, p: seq<string>)
    requires IsChain(edges, l, start, p)
    ensures 1 <= |p| && l.minLength <= |p| && p[0] == start
  {
  }

  const DEFAULT_LIMITS := Limits(3, 6, 86400000)

  /** Under the default limits a chain of four wallets is reported together with its first three. */
  lemma PrefixIsReportedToo()
    ensures var edges := [Sent("a", "b", 1, 5), Sent("b", "c", 2, 5), Sent("c", "d", 3, 5)];
      && IsChain(edges, DEFAULT_LIMITS, "a", ["a", "b", "c", "d"])
      && IsChain(edges, DEFAULT_LIMITS, "a", ["a", "b", "c"])
      && forall keep: seq<seq<string>> :: (forall p :: p in keep <==> IsChain(edges, DEFAULT_LIMITS, "a", p)) ==> !PrefixFree(keep)
  {
    var edges := [Sent("a", "b", 1, 5), Sent("b", "c", 2, 5), Sent("c", "d", 3, 5)];
    var p := ["a", "b", "c", "d"];
    FourWallets(edges, p);
    hide IsChain;
    PrefixesAreChains(edges, DEFAULT_LIMITS, "a", p, 3);
    assert p[..3] == ["a", "b", "c"];
    forall keep: seq<seq<string>> | forall q :: q in keep <==> IsChain(edges, DEFAULT_LIMITS, "a", q) ensures !PrefixFree(keep) {
      PrefixFreeIff(edges, DEFAULT_LIMITS, "a", keep);
      assert p in keep;
    }
  }

  lemma FourWallets(edges: seq<Edge>, p: seq<string>)
    requires |p| == 4 && Distinct(p)
    requires edges == [Sent(p[0], p[1], 1, 5), Sent(p[1], p[2], 2, 5), Sent(p[2], p[3], 3, 5)]
    ensures IsChain(edges, DEFAULT_LIMITS, p[0], p)
  {
    assert edges[0].dstId == p[1] && edges[1].dstId == p[2] && edges[2].dstId == p[3];
    assert edges[0] in edges && edges[1] in edges && edges[2] in edges;
    assert Witnesses(edges, p, edges, DEFAULT_LIMITS.windowMs);
  }

  // ---------- The code ----------

  class ChainWalker {
    const bySrc: map<string, seq<Edge>>
    const limits: Limits
    var path: seq<string>
    var out: seq<seq<string>>

    constructor (bySrc: map<string, seq<Edge>>, limits: Limits, start: string)
      ensures this.bySrc == bySrc && this.limits == limits && path == [start] && out == []
    {
      this.bySrc, this.limits, path, out := bySrc, limits, [start], [];
    }

    /** The recursive search.  The path is as it was when the call returns. */
    method Go(ghost edges: seq<Edge>, node: string, last: int) returns (ghost found: seq<seq<string>>)
      requires IsIndex(bySrc, edges, IsSent, (e: Edge) => e.srcId)
      requires path != [] && path[|path| - 1] == node
      modifies this
      ensures path == old(path) && out == old(out) + found
      ensures forall p :: p in found <==> Records(edges, limits, path, last, p)
      decreases if |path| < limits.maxLength then limits.maxLength - |path| else 0
    {
      hide IsIndex, Records, Hop;
      ghost var here := path;
      found := [];
      if |path| >= limits.minLength {
        out := out + [path];
        found := [path];
      }
      forall p ensures |here| >= limits.maxLength ==> (p in found <==> Records(edges, limits, here, last, p)) {
        RecordsStep(edges, limits, here, last, p);
      }
      if |path| >= limits.maxLength { return; }
      var es := Entry(bySrc, node);
      var i := 0;
      while i < |es|
        invariant 0 <= i <= |es|
        invariant path == here && out == old(out) + found
        invariant forall p :: p in found <==>
          (p == here && limits.minLength <= |here|)
          || exists j :: 0 <= j < i && RecordsVia(edges, limits, here, last, es[j], p)
      {
        var e := es[i];
        InIndex(bySrc, edges, IsSent, (e: Edge) => e.srcId, node, e);
        HopTest(edges, limits, here, last, e);
        i := i + 1;
        if e.dstId in path { continue; }
        if last != 0 && e.ts - last > limits.windowMs { continue; }
        if last != 0 && e.ts < last { continue; }
        path := path + [e.dstId];
        ghost var before := found;
        ghost var sub := Go(edges, e.dstId, e.ts);
        path := path[..|path| - 1];
        found := found + sub;
        forall p ensures p in sub <==> RecordsVia(edges, limits, here, last, e, p) {}
      }
      forall p ensures p in found <==> Records(edges, limits, here, last, p) {
        RecordsStep(edges, limits, here, last, p);
        forall e | RecordsVia(edges, limits, here, last, e, p) ensures e in es {
          HopTest(edges, limits, here, last, e);
          InIndex(bySrc, edges, IsSent, (e: Edge) => e.srcId, node, e);
        }
      }
    }
  }

  lemma HopTest(edges: seq<Edge>, l: Limits, path: seq<string>, last: int, e: Edge)
    requires path != []
    ensures Hop(edges, l, path, last, e) <==>
      && e in edges && IsSent(e) && e.srcId == path[|path| - 1]
      && e.dstId !in path
      && !(last != 0 && e.ts - last > l.windowMs) && !(last != 0 && e.ts < last)
  {
  }

  // ---------- Ordering and duplicate removal ----------

  ghost predicate LongestFirst(s: seq<seq<string>>) {
    forall i, j :: 0 <= i < j < |s| ==> |s[i]| >= |s[j]|
  }

  ghost predicate NoDuplicates(s: seq<seq<string>>) {
    forall i, j :: 0 <= i < j < |s| ==> s[i] != s[j]
  }

  function Take(s: seq<string>, n: nat): seq<string> {
    if |s| <= n then s else s[..n]
  }

  /** The filter meant to drop prefixes compares against chains that are at least as long, so all it drops is
      repetitions. */
  method KeepFirst(sorted: seq<seq<string>>) returns (keep: seq<seq<string>>)
    requires LongestFirst(sorted)
    ensures forall c :: c in keep <==> c in sorted
    ensures NoDuplicates(keep) && LongestFirst(keep)
  {
    keep := [];
    for i := 0 to |sorted|
      invariant forall c :: c in keep <==> c in sorted[..i]
      invariant NoDuplicates(keep) && LongestFirst(keep)
    {
      var chain := sorted[i];
      var skip := false;
      for j := 0 to |keep|
        invariant skip <==> exists k :: 0 <= k < j && keep[k] == chain
      {
        assert keep[j] in keep;
        assert |keep[j]| >= |chain| by {
          assert keep[j] in sorted[..i];
          var n :| 0 <= n < i && sorted[..i][n] == keep[j];
          assert sorted[n] == keep[j];
        }
        if Take(chain, |keep[j]|) == keep[j] { skip := true; break; }
      }
      assert sorted[..i + 1] == sorted[..i] + [chain];
      if skip { continue; }
      forall k | 0 <= k < |keep| ensures |keep[k]| >= |chain| && keep[k] != chain {
        assert keep[k] in sorted[..i];
        var n :| 0 <= n < i && sorted[..i][n] == keep[k];
        assert sorted[n] == keep[k];
      }
      keep := keep + [chain];
    }
    assert sorted[..|sorted|] == sorted;
  }

  lemma {:induction false} SortedIsLongestFirst(s: seq<seq<string>>, key: seq<string> -> int)
    requires Sorted(s, key) && forall p :: key(p) == -|p|
    ensures LongestFirst(s)
  {
    if |s| > 1 {
      SortedIsLongestFirst(s[1..], key);
      forall j | 0 < j < |s| ensures |s[0]| >= |s[j]| {
        HeadIsLeast(s, key, s[j]);
      }
      forall i, j | 0 <= i < j < |s| ensures |s[i]| >= |s[j]| {
        assert i > 0 ==> s[1..][i - 1] == s[i] && s[1..][j - 1] == s[j];
      }
    }
  }

  /** Exactly the chains from start, each once, longest first. */
  method WalkChains(ghost edges: seq<Edge>, start: string, bySrc: map<string, seq<Edge>>, l: Limits)
    returns (keep: seq<seq<string>>)
    requires IsIndex(bySrc, edges, IsSent, (e: Edge) => e.srcId)
    ensures forall p :: p in keep <==> IsChain(edges, l, start, p)
    ensures NoDuplicates(keep) && LongestFirst(keep)
  {
    hide IsIndex, Records, IsChain;
    var walker := new ChainWalker(bySrc, l, start);
    ghost var found := walker.Go(edges, start, 0);
    var key := (p: seq<string>) => -|p|;
    var sorted := Sort(walker.out, key);
    SortSorts(walker.out, key);
    SortedIsLongestFirst(sorted, key);
    keep := KeepFirst(sorted);
    forall p ensures p in keep <==> IsChain(edges, l, start, p) {
      SortHas(walker.out, key, p);
      SearchFindsChains(edges, l, start, p);
    }
  }

  /** A reported chain with the total of the first transfer in time between each two neighbours. */
  datatype Mule = Mule(members: seq<string>, total: int, confidence: real)

  function Confidence(n: int, minLength: int): real {
    var c := 0.6 + 0.1 * (n - minLength) as real;
    if c < 0.95 then c else 0.95
  }

  /** Confidence starts at 0.6 for the shortest chains, grows by 0.1 a wallet, and ends at 0.95 four wallets later. */
  lemma ConfidenceSteps(n: int, minLength: int)
    requires n >= minLength
    ensures Confidence(n, minLength) ==
      if n == minLength then 0.6 else if n == minLength + 1 then 0.7
      else if n == minLength + 2 then 0.8 else if n == minLength + 3 then 0.9 else 0.95
  {
  }

  /** Amount of the first transfer in time from a to b, zero if there is none. */
  function HopAmount(edges: seq<Edge>, a: string, b: string): int {
    match First(ByTime(WithKey(edges, IsSent, (e: Edge) => e.srcId, a)), (e: Edge) => e.dstId == b)
    case None => 0
    case Some(e) => e.amount
  }

  function Total(edges: seq<Edge>, chain: seq<string>): int {
    if |chain| <= 1 then 0
    else Total(edges, chain[..|chain| - 1]) + HopAmount(edges, chain[|chain| - 2], chain[|chain| - 1])
  }

  /** The total counts, for every hop, an earliest transfer between the two wallets: not necessarily the one the
      search walked along. */
  lemma HopAmountIsEarliest(edges: seq<Edge>, a: string, b: string)
    ensures (exists e :: e in edges && IsSent(e) && e.srcId == a && e.dstId == b) ==>
      exists e: Edge :: e.amount == HopAmount(edges, a, b)
        && Earliest(edges, IsSent, (x: Edge) => x.srcId, a, (x: Edge) => x.dstId == b, e)
  {
    hide First, ByTime, WithKey;
    var p, src := (x: Edge) => x.dstId == b, (x: Edge) => x.srcId;
    FirstByTime(edges, IsSent, src, a, p);
    forall e | e in edges && IsSent(e) && e.srcId == a && e.dstId == b
      ensures Candidate(edges, IsSent, src, a, p, e) {}
  }

  /** What the transfers of a walk carried, and by how much that exceeds what the total counts. */
  function Walked(es: seq<Edge>): int {
    if es == [] then 0 else Walked(es[..|es| - 1]) + es[|es| - 1].amount
  }

  function Excess(edges: seq<Edge>, e: Edge): int { e.amount - HopAmount(edges, e.srcId, e.dstId) }

  function ExcessOf(edges: seq<Edge>, es: seq<Edge>): int {
    if es == [] then 0 else ExcessOf(edges, es[..|es| - 1]) + Excess(edges, es[|es| - 1])
  }

  lemma {:induction false} WalkedIsTotalPlusExcess(edges: seq<Edge>, p: seq<string>, es: seq<Edge>, windowMs: int)
    requires p != [] && Witnesses(edges, p, es, windowMs)
    ensures Walked(es) == Total(edges, p) + ExcessOf(edges, es)
  {
    hide HopAmount;
    if es != [] {
      var n := |es| - 1;
      WitnessesPart(edges, p, es, windowMs, 0, n);
      assert p[0..n + 1] == p[..|p| - 1] && es[0..n] == es[..n];
      WalkedIsTotalPlusExcess(edges, p[..|p| - 1], es[..n], windowMs);
    }
  }

  lemma WitnessesPart(edges: seq<Edge>, p: seq<string>, es: seq<Edge>, windowMs: int, i: nat, j: nat)
    requires Witnesses(edges, p, es, windowMs) && i <= j <= |es|
    ensures Witnesses(edges, p[i..j + 1], es[i..j], windowMs)
    ensures Distinct(p) ==> Distinct(p[i..j + 1])
  {
  }

  lemma {:induction false} ExcessOfConcat(edges: seq<Edge>, a: seq<Edge>, b: seq<Edge>)
    ensures ExcessOf(edges, a + b) == ExcessOf(edges, a) + ExcessOf(edges, b)
  {
    hide Excess;
    if b == [] {
      assert a + b == a;
    } else {
      assert (a + b)[..|a + b| - 1] == a + b[..|b| - 1];
      ExcessOfConcat(edges, a, b[..|b| - 1]);
    }
  }

  /** Every walk along every chain of at most n wallets carried the chain's total. */
  ghost predicate TotalsAreWalked(edges: seq<Edge>, l: Limits, n: int) {
    forall start, p, es :: IsChain(edges, l, start, p) && Witnesses(edges, p, es, l.windowMs) && |p| <= n ==>
      Walked(es) == Total(edges, p)
  }

  lemma SplitChain(edges: seq<Edge>, l: Limits, start: string, p: seq<string>, es: seq<Edge>, h: nat)
    requires IsChain(edges, l, start, p) && Witnesses(edges, p, es, l.windowMs)
    requires 0 < h && 1 <= l.minLength <= h + 1 && h + l.minLength <= |p|
    ensures |es| == |p| - 1
    ensures IsChain(edges, l, start, p[..h + 1]) && Witnesses(edges, p[..h + 1], es[..h], l.windowMs)
    ensures IsChain(edges, l, p[h], p[h..]) && Witnesses(edges, p[h..], es[h..], l.windowMs)
  {
    WitnessesPart(edges, p, es, l.windowMs, 0, h);
    WitnessesPart(edges, p, es, l.windowMs, h, |es|);
    assert p[0..h + 1] == p[..h + 1] && es[0..h] == es[..h] && p[h..|es| + 1] == p[h..] && es[h..|es|] == es[h..];
  }

  lemma {:induction false} ChainTotalIsWalked(edges: seq<Edge>, l: Limits, start: string, p: seq<string>, es: seq<Edge>)
    requires l.minLength >= 2 && TotalsAreWalked(edges, l, 2 * l.minLength - 2)
    requires IsChain(edges, l, start, p) && Witnesses(edges, p, es, l.windowMs)
    ensures Walked(es) == Total(edges, p)
    decreases |p|
  {
    hide Walked, Total, ExcessOf, Witnesses, IsChain;
    if |p| > 2 * l.minLength - 2 {
      var h := l.minLength - 1;
      SplitChain(edges, l, start, p, es, h);
      ChainTotalIsWalked(edges, l, start, p[..h + 1], es[..h]);
      ChainTotalIsWalked(edges, l, p[h], p[h..], es[h..]);
      WalkedIsTotalPlusExcess(edges, p[..h + 1], es[..h], l.windowMs);
      WalkedIsTotalPlusExcess(edges, p[h..], es[h..], l.windowMs);
      WalkedIsTotalPlusExcess(edges, p, es, l.windowMs);
      assert es == es[..h] + es[h..];
      ExcessOfConcat(edges, es[..h], es[h..]);
    }
  }

  /** Totals are right for all chains once they are right for the short ones: those of fewer than twice as many
      transfers as the shortest chain has. */
  lemma ShortChainsDecide(edges: seq<Edge>, l: Limits, n: int)
    requires l.minLength >= 2 && n >= 2 * l.minLength - 2
    ensures TotalsAreWalked(edges, l, n) <==> TotalsAreWalked(edges, l, 2 * l.minLength - 2)
  {
    hide Walked, Total, Witnesses, IsChain;
    if TotalsAreWalked(edges, l, 2 * l.minLength - 2) {
      forall start, p, es | IsChain(edges, l, start, p) && Witnesses(edges, p, es, l.windowMs) && |p| <= n
        ensures Walked(es) == Total(edges, p)
      {
        ChainTotalIsWalked(edges, l, start, p, es);
      }
    }
  }

  /** f can follow e on a walk through distinct wallets. */
  ghost predicate Follows(edges: seq<Edge>, windowMs: int, e: Edge, f: Edge) {
    Through(edges, e, f) && HopOk(e.ts, f.ts, windowMs)
  }

  /** g can follow f after e, with all four wallets distinct. */
  ghost predicate Follow3(edges: seq<Edge>, windowMs: int, e: Edge, f: Edge, g: Edge) {
    Follows(edges, windowMs, e, f) && Follows(edges, windowMs, f, g) && e.srcId != g.dstId
  }

  /** On every two transfers that can follow each other the excesses cancel, and when there are three the one in
      the middle carries what the earliest transfer between its wallets carried. */
  ghost predicate Balanced(edges: seq<Edge>, l: Limits) {
    && (forall e, f :: Follows(edges, l.windowMs, e, f) ==> Excess(edges, e) + Excess(edges, f) == 0)
    && (l.maxLength >= 4 ==> forall e, f, g :: Follow3(edges, l.windowMs, e, f, g) ==> Excess(edges, f) == 0)
  }

  /** With chains of three wallets or more, as by default: every walk along every chain carries its total exactly
      when the transfers are balanced. */
  lemma TotalIsWalkedIff(edges: seq<Edge>, l: Limits)
    requires l.minLength == 3 <= l.maxLength
    ensures (forall n :: TotalsAreWalked(edges, l, n)) <==> Balanced(edges, l)
  {
    hide Walked, Total, Witnesses, IsChain, Excess, ExcessOf, Follows;
    if forall n :: TotalsAreWalked(edges, l, n) {
      assert TotalsAreWalked(edges, l, 4);
      forall e, f | Follows(edges, l.windowMs, e, f) ensures Excess(edges, e) + Excess(edges, f) == 0 {
        PairIsChain(edges, l, e, f);
      }
      forall e, f, g | l.maxLength >= 4 && Follow3(edges, l.windowMs, e, f, g) ensures Excess(edges, f) == 0 {
        TripleIsChain(edges, l, e, f, g);
      }
    }
    if Balanced(edges, l) {
      forall start, p, es | IsChain(edges, l, start, p) && Witnesses(edges, p, es, l.windowMs) && |p| <= 4
        ensures Walked(es) == Total(edges, p)
      {
        BalancedChain(edges, l, start, p, es);
      }
      forall n ensures TotalsAreWalked(edges, l, n) {
        if n >= 4 { ShortChainsDecide(edges, l, n); }
      }
    }
  }

  lemma PairIsChain(edges: seq<Edge>, l: Limits, e: Edge, f: Edge)
    requires l.minLength == 3 <= l.maxLength && Follows(edges, l.windowMs, e, f)
    requires TotalsAreWalked(edges, l, 4)
    ensures Excess(edges, e) + Excess(edges, f) == 0
  {
    hide IsChain, Walked, Total, Excess;
    ThroughIsChain(edges, l, e, f);
    WalkedIsTotalPlusExcess(edges, PathOf(e, f), [e, f], l.windowMs);
    ExcessOfTwo(edges, e, f);
    assert IsChain(edges, l, e.srcId, PathOf(e, f));
  }

  lemma ExcessOfTwo(edges: seq<Edge>, e: Edge, f: Edge)
    ensures ExcessOf(edges, [e, f]) == Excess(edges, e) + Excess(edges, f)
  {
    assert [e, f][..1] == [e] && [e][..0] == [];
    assert ExcessOf(edges, [e]) == Excess(edges, e);
  }

  lemma TripleIsChain(edges: seq<Edge>, l: Limits, e: Edge, f: Edge, g: Edge)
    requires l.minLength == 3 && 4 <= l.maxLength && Follow3(edges, l.windowMs, e, f, g)
    requires TotalsAreWalked(edges, l, 4)
    ensures Excess(edges, f) == 0
  {
    hide Walked, Total, Excess;
    PairIsChain(edges, l, e, f);
    PairIsChain(edges, l, f, g);
    var p, es := [e.srcId, e.dstId, f.dstId, g.dstId], [e, f, g];
    assert es[0] == e && es[1] == f && es[2] == g;
    assert Witnesses(edges, p, es, l.windowMs);
    assert IsChain(edges, l, e.srcId, p);
    WalkedIsTotalPlusExcess(edges, p, es, l.windowMs);
    assert es[..2] == [e, f];
    ExcessOfTwo(edges, e, f);
  }

  lemma {:induction false} BalancedChain(edges: seq<Edge>, l: Limits, start: string, p: seq<string>, es: seq<Edge>)
    requires l.minLength == 3 && Balanced(edges, l) && |p| <= 4
    requires IsChain(edges, l, start, p) && Witnesses(edges, p, es, l.windowMs)
    ensures Walked(es) == Total(edges, p)
  {
    hide Walked, Total, Excess;
    WalkedIsTotalPlusExcess(edges, p, es, l.windowMs);
    WitnessesAreThrough(edges, p, es, l.windowMs, 1);
    assert Follows(edges, l.windowMs, es[0], es[1]);
    ExcessOfTwo(edges, es[0], es[1]);
    if |es| == 2 {
      assert es == [es[0], es[1]];
    } else {
      WitnessesAreThrough(edges, p, es, l.windowMs, 2);
      assert es[..2] == [es[0], es[1]];
      assert p[0] != p[3];
      assert Follow3(edges, l.windowMs, es[0], es[1], es[2]);
    }
  }

  /** With two-wallet chains admitted: exactly when every transfer carries what the earliest between its wallets did. */
  lemma TotalIsWalkedFromTwoIff(edges: seq<Edge>, l: Limits)
    requires l.minLength == 2 <= l.maxLength
    ensures (forall n :: TotalsAreWalked(edges, l, n)) <==>
      forall e :: e in edges && IsSent(e) && e.srcId != e.dstId ==> Excess(edges, e) == 0
  {
    hide Walked, Total, Excess, IsChain, Witnesses;
    if forall n :: TotalsAreWalked(edges, l, n) {
      forall e | e in edges && IsSent(e) && e.srcId != e.dstId ensures Excess(edges, e) == 0 {
        SingleIsChain(edges, l, e);
      }
    } else {
      var n :| !TotalsAreWalked(edges, l, n);
      if n >= 2 { ShortChainsDecide(edges, l, n); }
      var start, p, es :| IsChain(edges, l, start, p) && Witnesses(edges, p, es, l.windowMs) && |p| <= 2 && Walked(es) != Total(edges, p);
      SingleStep(edges, l, start, p, es);
    }
  }

  lemma SingleIsChain(edges: seq<Edge>, l: Limits, e: Edge)
    requires l.minLength == 2 <= l.maxLength && e in edges && IsSent(e) && e.srcId != e.dstId
    requires TotalsAreWalked(edges, l, 2)
    ensures Excess(edges, e) == 0
  {
    hide Walked, Total, Excess;
    var p, es := [e.srcId, e.dstId], [e];
    assert Witnesses(edges, p, es, l.windowMs) && IsChain(edges, l, e.srcId, p);
    WalkedIsTotalPlusExcess(edges, p, es, l.windowMs);
    assert es[..0] == [];
  }

  lemma SingleStep(edges: seq<Edge>, l: Limits, start: string, p: seq<string>, es: seq<Edge>)
    requires l.minLength == 2 && IsChain(edges, l, start, p) && Witnesses(edges, p, es, l.windowMs) && |p| <= 2
    ensures |es| == 1 && es[0] in edges && IsSent(es[0]) && es[0].srcId != es[0].dstId
    ensures Walked(es) == Total(edges, p) + Excess(edges, es[0])
  {
    hide Walked, Total, Excess;
    WalkedIsTotalPlusExcess(edges, p, es, l.windowMs);
    assert p[0] != p[1] && es[..0] == [];
  }

  /** Edges of any other kind change neither the chains nor what is counted, and every transfer between two wallets is a
      chain where two wallets are enough. */
  lemma OnlyTransfersMatter(edges: seq<Edge>, f: Edge, l: Limits, start: string, p: seq<string>, a: string, b: string)
    requires f.kind != "SENT"
    ensures IsChain(edges + [f], l, start, p) <==> IsChain(edges, l, start, p)
    ensures HopAmount(edges + [f], a, b) == HopAmount(edges, a, b)
  {
    var more := edges + [f];
    forall e ensures e in more && IsSent(e) <==> e in edges && IsSent(e) {}
    forall es ensures Witnesses(more, p, es, l.windowMs) <==> Witnesses(edges, p, es, l.windowMs) {}
    var src := (e: Edge) => e.srcId;
    WithKeyAppend(edges, f, IsSent, src, a);
    assert One(f, IsSent, src, a) == [];
    assert WithKey(more, IsSent, src, a) == WithKey(edges, IsSent, src, a);
  }

  lemma TransferIsChain(edges: seq<Edge>, e: Edge, l: Limits)
    requires e in edges && e.kind == "SENT" && e.srcId != e.dstId && l.minLength <= 2 <= l.maxLength
    ensures IsChain(edges, l, e.srcId, [e.srcId, e.dstId])
  {
    assert Witnesses(edges, [e.srcId, e.dstId], [e], l.windowMs);
  }

  /** The transfer that is strictly the earliest between its wallets is the one that is counted. */
  lemma HopAmountOf(edges: seq<Edge>, e: Edge)
    requires e in edges && IsSent(e)
    requires forall f :: f in edges && IsSent(f) && f.srcId == e.srcId && f.dstId == e.dstId ==> f == e || e.ts < f.ts
    ensures HopAmount(edges, e.srcId, e.dstId) == e.amount
  {
    HopAmountIsEarliest(edges, e.srcId, e.dstId);
    var f: Edge :| f.amount == HopAmount(edges, e.srcId, e.dstId)
      && Earliest(edges, IsSent, (x: Edge) => x.srcId, e.srcId, (x: Edge) => x.dstId == e.dstId, f);
    assert Candidate(edges, IsSent, (x: Edge) => x.srcId, e.srcId, (x: Edge) => x.dstId == e.dstId, e);
  }

  lemma TotalOfThree(edges: seq<Edge>, a: string, b: string, c: string)
    ensures Total(edges, [a, b, c]) == HopAmount(edges, a, b) + HopAmount(edges, b, c)
  {
    hide HopAmount;
    assert [a, b, c][..2] == [a, b] && [a, b][..1] == [a];
    assert Total(edges, [a, b]) == HopAmount(edges, a, b);
  }

  lemma WalkedTwo(e: Edge, f: Edge)
    ensures Walked([e, f]) == e.amount + f.amount
  {
    assert [e, f][..1] == [e] && [e][..0] == [];
    assert Walked([e]) == e.amount;
  }

  const EARLY := Sent("a", "b", 1, 10)
  const FEED := Sent("x", "a", 5, 7)
  const LATE := Sent("a", "b", 6, 99)
  const LAYERED := [EARLY, FEED, LATE]

  /** Under the default limits: every walk along this chain carried 106, and the total reported for it is 17. */
  lemma TotalNeedNotBeWalked()
    ensures IsChain(LAYERED, DEFAULT_LIMITS, "x", ["x", "a", "b"]) && Total(LAYERED, ["x", "a", "b"]) == 17
    ensures forall es :: Witnesses(LAYERED, ["x", "a", "b"], es, DEFAULT_LIMITS.windowMs) ==> Walked(es) == 106
    ensures !Balanced(LAYERED, DEFAULT_LIMITS)
  {
    hide HopAmount, Balanced;
    var p := ["x", "a", "b"];
    assert LAYERED[0] == EARLY && LAYERED[1] == FEED && LAYERED[2] == LATE;
    HopAmountOf(LAYERED, EARLY);
    HopAmountOf(LAYERED, FEED);
    TotalOfThree(LAYERED, "x", "a", "b");
    ThroughIsChain(LAYERED, DEFAULT_LIMITS, FEED, LATE);
    assert PathOf(FEED, LATE) == p;
    forall es | Witnesses(LAYERED, p, es, DEFAULT_LIMITS.windowMs) ensures Walked(es) == 106 {
      assert es == [FEED, LATE];
      WalkedTwo(FEED, LATE);
    }
    Unbalanced(LAYERED, DEFAULT_LIMITS, FEED, LATE);
  }

  lemma Unbalanced(edges: seq<Edge>, l: Limits, e: Edge, f: Edge)
    requires Follows(edges, l.windowMs, e, f) && Excess(edges, e) + Excess(edges, f) != 0
    ensures !Balanced(edges, l)
  {
  }

  const SLOW_LIMITS := Limits(3, 6, 5)
  const CANCELLING := [Sent("a", "b", 1, 10), Sent("b", "c", 1, 20), Sent("a", "b", 100, 20), Sent("b", "c", 100, 10)]

  /** Balance is less than "every transfer a walk can use carries the earliest one's amount": here the later a-to-b
      transfer carries twice as much, and every walk along every chain still carries its total. */
  lemma ExcessesCanCancel()
    ensures Balanced(CANCELLING, SLOW_LIMITS) && forall n :: TotalsAreWalked(CANCELLING, SLOW_LIMITS, n)
    ensures Follows(CANCELLING, 5, CANCELLING[2], CANCELLING[3]) && Excess(CANCELLING, CANCELLING[2]) == 10
  {
    hide HopAmount, TotalsAreWalked, Balanced;
    CancellingExcess();
    CancellingIsBalanced();
    TotalIsWalkedIff(CANCELLING, SLOW_LIMITS);
  }

  lemma CancellingExcess()
    ensures var s := CANCELLING;
      && Excess(s, s[0]) == 0 && Excess(s, s[1]) == 0 && Excess(s, s[2]) == 10 && Excess(s, s[3]) == -10
      && Follows(s, 5, s[2], s[3])
  {
    hide HopAmount;
    var s := CANCELLING;
    assert s[0] in s && s[1] in s && s[2] in s && s[3] in s;
    HopAmountOf(s, s[0]);
    HopAmountOf(s, s[1]);
  }

  lemma CancellingIsBalanced()
    ensures Balanced(CANCELLING, SLOW_LIMITS)
  {
    hide Excess;
    CancellingExcess();
    var s := CANCELLING;
    forall e | e in s ensures e == s[0] || e == s[1] || e == s[2] || e == s[3] {}
    forall e, f | Follows(s, 5, e, f) ensures e.srcId == "a" && f.srcId == "b" && e.ts == f.ts {}
  }

  method TotalOf(ghost edges: seq<Edge>, chain: seq<string>, bySrc: map<string, seq<Edge>>) returns (total: int)
    requires IsIndex(bySrc, edges, IsSent, (e: Edge) => e.srcId)
    ensures total == Total(edges, chain)
  {
    hide First, ByTime, WithKey;
    total := 0;
    var i := 1;
    while i < |chain|
      invariant 1 <= i && (i <= |chain| || |chain| == 0)
      invariant total == if chain == [] then 0 else Total(edges, chain[..i])
    {
      var e := FindFirst(Entry(bySrc, chain[i - 1]), (e: Edge) => e.dstId == chain[i]);
      assert chain[..i + 1][..i] == chain[..i];
      total := total + (if e.Some? then e.value.amount else 0);
      i := i + 1;
    }
    assert chain != [] ==> chain[..|chain|] == chain;
  }

  function Members(ms: seq<Mule>): set<seq<string>> {
    set m | m in ms :: m.members
  }

  /** No chain is reported twice, and those from one wallet come longest first. */
  ghost predicate InReportOrder(ms: seq<Mule>) {
    forall i, j :: 0 <= i < j < |ms| && From(ms[i]) == From(ms[j]) ==>
      ms[i].members != ms[j].members && |ms[i].members| >= |ms[j].members|
  }

  function From(m: Mule): string { if m.members == [] then "" else m.members[0] }

  lemma AppendFromOneStart(ms: seq<Mule>, found: seq<Mule>, start: string)
    requires InReportOrder(ms) && InReportOrder(found)
    requires (forall m :: m in ms ==> From(m) != start) && (forall m :: m in found ==> From(m) == start)
    ensures InReportOrder(ms + found)
  {
    var r := ms + found;
    forall i | 0 <= i < |ms| ensures From(r[i]) != start { assert r[i] in ms; }
    forall j | |ms| <= j < |r| ensures From(r[j]) == start { assert r[j] in found; }
    forall i, j | 0 <= i < j < |r| && From(r[i]) == From(r[j])
      ensures r[i].members != r[j].members && |r[i].members| >= |r[j].members|
    {
      if i >= |ms| {
        assert r[i] == found[i - |ms|] && r[j] == found[j - |ms|];
      }
    }
  }

  /** Chains are reported for every wallet with an outgoing transfer, and for no other. */
  method DetectMuleChains(edges: seq<Edge>, l: Limits) returns (ms: seq<Mule>)
    ensures InReportOrder(ms)
    ensures forall p :: p in Members(ms) <==> exists e :: e in edges && IsSent(e) && IsChain(edges, l, e.srcId, p)
    ensures forall m :: m in ms ==>
      m.confidence == Confidence(|m.members|, l.minLength) && m.total == Total(edges, m.members)
  {
    hide IsIndex, IsChain, Total, InReportOrder, From;
    EmptyReport();
    var bySrc := BuildIndex(edges, IsSent, (e: Edge) => e.srcId);
    ms := [];
    var todo := bySrc.Keys;
    while todo != {}
      invariant todo <= bySrc.Keys
      invariant InReportOrder(ms) && forall m :: m in ms ==> From(m) !in todo
      invariant forall p :: p in Members(ms) <==> exists s :: s in bySrc && s !in todo && IsChain(edges, l, s, p)
      invariant forall m :: m in ms ==>
        m.confidence == Confidence(|m.members|, l.minLength) && m.total == Total(edges, m.members)
      decreases |todo|
    {
      var start :| start in todo;
      var found := MulesFrom(edges, start, bySrc, l);
      assert Members(ms + found) == Members(ms) + Members(found);
      AppendFromOneStart(ms, found, start);
      ms := ms + found;
      todo := todo - {start};
    }
    forall start ensures start in bySrc <==> exists e :: e in edges && IsSent(e) && e.srcId == start {
      HasOutgoing(bySrc, edges, start);
    }
  }

  method MulesFrom(ghost edges: seq<Edge>, start: string, bySrc: map<string, seq<Edge>>, l: Limits) returns (ms: seq<Mule>)
    requires IsIndex(bySrc, edges, IsSent, (e: Edge) => e.srcId)
    ensures InReportOrder(ms) && forall m :: m in ms ==> From(m) == start
    ensures forall p :: p in Members(ms) <==> IsChain(edges, l, start, p)
    ensures forall m :: m in ms ==>
      m.confidence == Confidence(|m.members|, l.minLength) && m.total == Total(edges, m.members)
  {
    hide IsIndex, IsChain, Total;
    var chains := WalkChains(edges, start, bySrc, l);
    ms := [];
    for i := 0 to |chains|
      invariant |ms| == i && forall k :: 0 <= k < i ==> ms[k].members == chains[k]
      invariant forall p :: p in Members(ms) <==> p in chains[..i]
      invariant forall m :: m in ms ==>
        m.confidence == Confidence(|m.members|, l.minLength) && m.total == Total(edges, m.members)
    {
      var total := TotalOf(edges, chains[i], bySrc);
      ghost var before := ms;
      ms := ms + [Mule(chains[i], total, Confidence(|chains[i]|, l.minLength))];
      assert Members(ms) == Members(before) + {chains[i]};
      assert chains[..i + 1] == chains[..i] + [chains[i]];
    }
    assert chains[..|chains|] == chains;
    forall m | m in ms ensures From(m) == start {
      assert m.members in Members(ms);
      ChainLength(edges, l, start, m.members);
    }
  }

  lemma EmptyReport()
    ensures InReportOrder([])
  {
  }

  lemma HasOutgoing(bySrc: map<string, seq<Edge>>, edges: seq<Edge>, start: string)
    requires IsIndex(bySrc, edges, IsSent, (e: Edge) => e.srcId) && NoEmptyEntry(bySrc)
    ensures start in bySrc <==> exists e :: e in edges && IsSent(e) && e.srcId == start
  {
    hide IsIndex;
    forall e ensures e in Entry(bySrc, start) <==> e in edges && IsSent(e) && e.srcId == start {
      InIndex(bySrc, edges, IsSent, (e: Edge) => e.srcId, start, e);
    }
    if start in bySrc { assert Entry(bySrc, start)[0] in Entry(bySrc, start); }
  }
}
