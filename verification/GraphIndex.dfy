/** Edges of the extracted graph, stable sorting by an integer key, and the indexes the motif detectors build. */
module GraphIndex {
  import opened Basics

  datatype Edge = Edge(
    kind: string, srcKind: string, srcId: string, dstKind: string, dstId: string, ts: int, amount: int)

  // ---------- Filtering ----------

  /** The selected elements with key k, in order. */
  function WithKey<T, K(==)>(s: seq<T>, select: T -> bool, key: T -> K, k: K): seq<T> {
    if s == [] then [] else One(s[0], select, key, k) + WithKey(s[1..], select, key, k)
  }

  function One<T, K(==)>(x: T, select: T -> bool, key: T -> K, k: K): seq<T> {
    if select(x) && key(x) == k then [x] else []
  }

  lemma {:induction false} WithKeyHas<T, K>(s: seq<T>, select: T -> bool, key: T -> K, k: K, x: T)
    ensures x in WithKey(s, select, key, k) <==> x in s && select(x) && key(x) == k
  {
    if s != [] {
      WithKeyHas(s[1..], select, key, k, x);
      assert x in s <==> x == s[0] || x in s[1..];
    }
  }

  lemma {:induction false} WithKeyAppend<T, K>(s: seq<T>, x: T, select: T -> bool, key: T -> K, k: K)
    ensures WithKey(s + [x], select, key, k) == WithKey(s, select, key, k) + One(x, select, key, k)
  {
    if s == [] {
      assert (s + [x])[1..] == [];
    } else {
      assert (s + [x])[1..] == s[1..] + [x];
      WithKeyAppend(s[1..], x, select, key, k);
      Assoc(One(s[0], select, key, k), WithKey(s[1..], select, key, k), One(x, select, key, k));
    }
  }

  // ---------- Nothing twice ----------

  ghost predicate Once<T>(s: seq<T>) { forall i, j :: 0 <= i < j < |s| ==> s[i] != s[j] }

  lemma OnceAppend<T>(a: seq<T>, b: seq<T>)
    requires Once(a) && Once(b) && forall x :: x in a ==> x !in b
    ensures Once(a + b)
  {
    var r := a + b;
    forall i, j | 0 <= i < j < |r| ensures r[i] != r[j] {
      if i < |a| && |a| <= j { assert r[i] in a; }
    }
  }

  /** Filtering keeps as many copies of a selected element as there were. */
  lemma {:induction false} WithKeyCounts<T, K>(s: seq<T>, select: T -> bool, key: T -> K, k: K, x: T)
    ensures multiset(WithKey(s, select, key, k))[x] == if select(x) && key(x) == k then multiset(s)[x] else 0
  {
    if s != [] {
      WithKeyCounts(s[1..], select, key, k, x);
      assert s == [s[0]] + s[1..];
    }
  }

  lemma {:induction false} OnceWithKey<T, K>(s: seq<T>, select: T -> bool, key: T -> K, k: K)
    requires Once(s)
    ensures Once(WithKey(s, select, key, k))
  {
    if s != [] {
      OnceWithKey(s[1..], select, key, k);
      forall x | x in WithKey(s[1..], select, key, k) ensures x != s[0] { WithKeyHas(s[1..], select, key, k, x); }
      OnceAppend(One(s[0], select, key, k), WithKey(s[1..], select, key, k));
    }
  }

  lemma {:induction false} OnceSort<T>(s: seq<T>, key: T -> int)
    requires Once(s)
    ensures Once(Sort(s, key))
  {
    if s != [] {
      var init, last := s[..|s| - 1], s[|s| - 1];
      OnceSort(init, key);
      SortHas(init, key, last);
      OnceInsert(Sort(init, key), last, key);
    }
  }

  lemma {:induction false} OnceInsert<T>(s: seq<T>, x: T, key: T -> int)
    requires Once(s) && x !in s
    ensures Once(Insert(s, x, key)) && forall y :: y in Insert(s, x, key) <==> y in s || y == x
  {
    if s != [] && key(x) >= key(s[0]) {
      OnceInsert(s[1..], x, key);
      OnceAppend([s[0]], Insert(s[1..], x, key));
    } else {
      OnceAppend([x], s);
    }
  }

  /** The first element satisfying p. */
  function First<T>(s: seq<T>, p: T -> bool): (r: Option<T>)
    ensures r.Some? ==> r.value in s && p(r.value)
  {
    if s == [] then None else if p(s[0]) then Some(s[0]) else First(s[1..], p)
  }

  method FindFirst<T>(s: seq<T>, p: T -> bool) returns (r: Option<T>)
    ensures r == First(s, p)
  {
    var i := 0;
    while i < |s|
      invariant 0 <= i <= |s| && First(s, p) == First(s[i..], p)
    {
      if p(s[i]) { return Some(s[i]); }
      assert s[i..][1..] == s[i + 1..];
      i := i + 1;
    }
    return None;
  }

  // ---------- Stable sorting ----------

  /** Neighbours are in order. */
  ghost predicate Sorted<T>(s: seq<T>, key: T -> int) {
    |s| > 1 ==> key(s[0]) <= key(s[1]) && Sorted(s[1..], key)
  }

  /** Insert after everything with a key no larger. */
  function Insert<T>(s: seq<T>, x: T, key: T -> int): seq<T> {
    if s == [] || key(x) < key(s[0]) then [x] + s else [s[0]] + Insert(s[1..], x, key)
  }

  function Sort<T>(s: seq<T>, key: T -> int): seq<T> {
    if s == [] then [] else Insert(Sort(s[..|s| - 1], key), s[|s| - 1], key)
  }

  lemma {:induction false} InsertAdds<T>(s: seq<T>, x: T, key: T -> int)
    ensures multiset(Insert(s, x, key)) == multiset(s) + multiset{x}
  {
    if s != [] && key(x) >= key(s[0]) {
      InsertAdds(s[1..], x, key);
      assert s == [s[0]] + s[1..];
    }
  }

  /** The sorted sequence holds the same elements, counted with multiplicity. */
  lemma {:induction false} SortIsPermutation<T>(s: seq<T>, key: T -> int)
    ensures multiset(Sort(s, key)) == multiset(s)
  {
    if s != [] {
      var init, last := s[..|s| - 1], s[|s| - 1];
      SortIsPermutation(init, key);
      InsertAdds(Sort(init, key), last, key);
      assert s == init + [last];
    }
  }

  lemma {:induction false} InsertSorted<T>(s: seq<T>, x: T, key: T -> int)
    requires Sorted(s, key)
    ensures Sorted(Insert(s, x, key), key)
  {
    if s != [] && key(x) >= key(s[0]) {
      InsertSorted(s[1..], x, key);
      assert Insert(s, x, key)[1..] == Insert(s[1..], x, key);
    } else {
      assert ([x] + s)[1..] == s;
    }
  }

  lemma {:induction false} SortSorts<T>(s: seq<T>, key: T -> int)
    ensures Sorted(Sort(s, key), key)
  {
    if s != [] {
      SortSorts(s[..|s| - 1], key);
      InsertSorted(Sort(s[..|s| - 1], key), s[|s| - 1], key);
    }
  }

  lemma SortHas<T>(s: seq<T>, key: T -> int, x: T)
    ensures x in Sort(s, key) <==> x in s
  {
    SortIsPermutation(s, key);
    assert x in multiset(Sort(s, key)) <==> x in multiset(s);
  }

  /** On a sorted sequence the first element has the least key. */
  lemma {:induction false} HeadIsLeast<T>(s: seq<T>, key: T -> int, x: T)
    requires Sorted(s, key) && x in s
    ensures key(s[0]) <= key(x)
  {
    if x != s[0] {
      assert x in s[1..];
      HeadIsLeast(s[1..], key, x);
    }
  }

  lemma {:induction false} WithKeyInsert<T>(s: seq<T>, x: T, select: T -> bool, key: T -> int, v: int)
    requires Sorted(s, key)
    ensures WithKey(Insert(s, x, key), select, key, v) == WithKey(s, select, key, v) + One(x, select, key, v)
  {
    var r := Insert(s, x, key);
    if s == [] || key(x) < key(s[0]) {
      assert r[0] == x && r[1..] == s;
      if key(x) == v { AllLarger(s, select, key, v); }
    } else {
      WithKeyInsert(s[1..], x, select, key, v);
      assert r[0] == s[0] && r[1..] == Insert(s[1..], x, key);
      Assoc(One(s[0], select, key, v), WithKey(s[1..], select, key, v), One(x, select, key, v));
    }
  }

  lemma Assoc<T>(a: seq<T>, b: seq<T>, c: seq<T>)
    ensures a + (b + c) == a + b + c
  {
  }

  lemma {:induction false} AllLarger<T>(s: seq<T>, select: T -> bool, key: T -> int, v: int)
    requires Sorted(s, key) && (s != [] ==> v < key(s[0]))
    ensures WithKey(s, select, key, v) == []
  {
    if s != [] { AllLarger(s[1..], select, key, v); }
  }

  lemma SortUnfolds<T>(s: seq<T>, key: T -> int)
    ensures Sort([], key) == []
    ensures s != [] ==> Sort(s, key) == Insert(Sort(s[..|s| - 1], key), s[|s| - 1], key)
  {
  }

  lemma StableStep<T>(init: seq<T>, last: T, select: T -> bool, key: T -> int, v: int)
    requires WithKey(Sort(init, key), select, key, v) == WithKey(init, select, key, v)
    ensures WithKey(Insert(Sort(init, key), last, key), select, key, v) == WithKey(init + [last], select, key, v)
  {
    hide WithKey, Insert, Sorted, One, Sort;
    SortSorts(init, key);
    WithKeyInsert(Sort(init, key), last, select, key, v);
    WithKeyAppend(init, last, select, key, v);
  }

  /** The sort is stable: among elements with equal keys, whichever of them one looks at, the order is kept. */
  lemma {:induction false} SortIsStable<T>(s: seq<T>, select: T -> bool, key: T -> int, v: int)
    ensures WithKey(Sort(s, key), select, key, v) == WithKey(s, select, key, v)
  {
    hide WithKey, Insert, Sort;
    SortUnfolds(s, key);
    if s != [] {
      var init, last := s[..|s| - 1], s[|s| - 1];
      SortIsStable(init, select, key, v);
      StableStep(init, last, select, key, v);
      assert s == init + [last];
    }
  }

  /** On a sorted sequence the first match has the least key of all matches. */
  lemma {:induction false} FirstIsLeast<T>(s: seq<T>, key: T -> int, p: T -> bool, x: T)
    requires Sorted(s, key) && x in s && p(x)
    ensures First(s, p).Some? && key(First(s, p).value) <= key(x)
  {
    if p(s[0]) {
      HeadIsLeast(s, key, x);
    } else {
      assert x in s[1..];
      FirstIsLeast(s[1..], key, p, x);
    }
  }

  // ---------- Indexes ----------

  function ByTime(s: seq<Edge>): seq<Edge> { Sort(s, (e: Edge) => e.ts) }

  /** What an index holds under a key: the selected edges with that key, in time order. */
  ghost predicate IsIndex<K(!new)>(out: map<K, seq<Edge>>, edges: seq<Edge>, select: Edge -> bool, key: Edge -> K) {
    forall k :: Entry(out, k) == ByTime(WithKey(edges, select, key, k))
  }

  /** A missing key reads as an empty list. */
  function Entry<K>(out: map<K, seq<Edge>>, k: K): seq<Edge> {
    if k in out then out[k] else []
  }

  ghost predicate NoEmptyEntry<K(!new)>(out: map<K, seq<Edge>>) {
    forall k :: k in out ==> out[k] != []
  }

  function Grouped<K(==)>(groups: map<K, seq<Edge>>, e: Edge, select: Edge -> bool, key: Edge -> K): map<K, seq<Edge>> {
    if select(e) then groups[key(e) := Entry(groups, key(e)) + [e]] else groups
  }

  lemma GroupedStep<K(!new)>(groups: map<K, seq<Edge>>, prefix: seq<Edge>, e: Edge, select: Edge -> bool, key: Edge -> K)
    requires forall k :: Entry(groups, k) == WithKey(prefix, select, key, k)
    ensures forall k :: Entry(Grouped(groups, e, select, key), k) == WithKey(prefix + [e], select, key, k)
  {
    hide WithKey;
    forall k ensures Entry(Grouped(groups, e, select, key), k) == WithKey(prefix + [e], select, key, k) {
      WithKeyAppend(prefix, e, select, key, k);
      assert Entry(groups, k) == WithKey(prefix, select, key, k);
    }
  }

  /** Group by key in list order, then sort every group in place by time. */
  method BuildIndex<K(==,!new)>(edges: seq<Edge>, select: Edge -> bool, key: Edge -> K) returns (out: map<K, seq<Edge>>)
    ensures IsIndex(out, edges, select, key) && NoEmptyEntry(out)
  {
    hide ByTime;
    var groups: map<K, seq<Edge>> := map[];
    for i := 0 to |edges|
      invariant NoEmptyEntry(groups)
      invariant forall k :: Entry(groups, k) == WithKey(edges[..i], select, key, k)
    {
      assert edges[..i + 1] == edges[..i] + [edges[i]];
      GroupedStep(groups, edges[..i], edges[i], select, key);
      groups := Grouped(groups, edges[i], select, key);
    }
    assert edges[..|edges|] == edges;
    out := SortGroups(groups);
    forall k | k in out ensures out[k] != [] { SortIsPermutation(groups[k], (e: Edge) => e.ts); }
    forall k ensures Entry(out, k) == ByTime(WithKey(edges, select, key, k)) {
      assert Entry(groups, k) == WithKey(edges, select, key, k);
    }
  }

  function SortGroups<K(!new)>(groups: map<K, seq<Edge>>): (out: map<K, seq<Edge>>)
    ensures forall k :: Entry(out, k) == ByTime(Entry(groups, k))
    ensures out.Keys == groups.Keys && forall k :: k in groups ==> out[k] == Sort(groups[k], (e: Edge) => e.ts)
  {
    map k | k in groups :: ByTime(groups[k])
  }

  lemma InIndex<K(!new)>(out: map<K, seq<Edge>>, edges: seq<Edge>, select: Edge -> bool, key: Edge -> K, k: K, x: Edge)
    requires IsIndex(out, edges, select, key)
    ensures x in Entry(out, k) <==> x in edges && select(x) && key(x) == k
  {
    var group := WithKey(edges, select, key, k);
    assert Entry(out, k) == Sort(group, (e: Edge) => e.ts);
    SortHas(group, (e: Edge) => e.ts, x);
    WithKeyHas(edges, select, key, k, x);
  }

  /** x is the earliest of the edges in the raw list that are selected, have key k and satisfy p. */
  ghost predicate Earliest<K(!new)>(edges: seq<Edge>, select: Edge -> bool, key: Edge -> K, k: K, p: Edge -> bool, x: Edge) {
    && Candidate(edges, select, key, k, p, x)
    && forall y :: Candidate(edges, select, key, k, p, y) ==> x.ts <= y.ts
  }

  ghost predicate Candidate<K>(edges: seq<Edge>, select: Edge -> bool, key: Edge -> K, k: K, p: Edge -> bool, x: Edge) {
    x in edges && select(x) && key(x) == k && p(x)
  }

  /** The first hit in time order is the earliest candidate of the raw list, if there is one. */
  lemma FirstByTime<K(!new)>(edges: seq<Edge>, select: Edge -> bool, key: Edge -> K, k: K, p: Edge -> bool)
    ensures var r := First(ByTime(WithKey(edges, select, key, k)), p);
      if r.Some? then Earliest(edges, select, key, k, p, r.value)
      else forall x :: !Candidate(edges, select, key, k, p, x)
  {
    var group := WithKey(edges, select, key, k);
    var time := (e: Edge) => e.ts;
    var sorted := ByTime(group);
    assert sorted == Sort(group, time);
    SortSorts(group, time);
    forall x ensures Candidate(edges, select, key, k, p, x) <==> x in sorted && p(x) {
      SortHas(group, time, x);
      WithKeyHas(edges, select, key, k, x);
    }
    forall x | x in sorted && p(x) ensures First(sorted, p).Some? && First(sorted, p).value.ts <= x.ts {
      FirstIsLeast(sorted, time, p, x);
    }
  }

  lemma FirstInIndex<K(!new)>(out: map<K, seq<Edge>>, edges: seq<Edge>, select: Edge -> bool, key: Edge -> K, k: K,
                              p: Edge -> bool)
    requires IsIndex(out, edges, select, key)
    ensures var r := First(Entry(out, k), p);
      if r.Some? then Earliest(edges, select, key, k, p, r.value)
      else forall x :: !Candidate(edges, select, key, k, p, x)
  {
    FirstByTime(edges, select, key, k, p);
  }

  /** An index entry repeats nothing that the edge list does not repeat. */
  lemma OnceEntry<K(!new)>(out: map<K, seq<Edge>>, edges: seq<Edge>, select: Edge -> bool, key: Edge -> K, k: K)
    requires IsIndex(out, edges, select, key) && Once(edges)
    ensures Once(Entry(out, k))
  {
    OnceWithKey(edges, select, key, k);
    OnceSort(WithKey(edges, select, key, k), (e: Edge) => e.ts);
  }

  /** No two edges of this kind link the same pair. */
  ghost predicate LinkedOnce(edges: seq<Edge>, kind: string, srcKind: string, dstKind: string) {
    forall i, j :: 0 <= i < j < |edges| && IsOutgoing(edges[i], kind, srcKind, dstKind) && IsOutgoing(edges[j], kind, srcKind, dstKind) ==>
      edges[i].srcId != edges[j].srcId || edges[i].dstId != edges[j].dstId
  }

  method ByEndpoints(edges: seq<Edge>, kind: string) returns (out: map<(string, string), seq<Edge>>)
    ensures IsIndex(out, edges, (e: Edge) => e.kind == kind, (e: Edge) => (e.srcId, e.dstId))
  {
    out := BuildIndex(edges, (e: Edge) => e.kind == kind, (e: Edge) => (e.srcId, e.dstId));
  }

  predicate IsOutgoing(e: Edge, kind: string, srcKind: string, dstKind: string) {
    e.kind == kind && e.srcKind == srcKind && e.dstKind == dstKind
  }

  method OutgoingEdges(edges: seq<Edge>, kind: string, srcKind: string, dstKind: string)
    returns (out: map<string, seq<Edge>>)
    ensures IsIndex(out, edges, (e: Edge) => IsOutgoing(e, kind, srcKind, dstKind), (e: Edge) => e.srcId)
  {
    out := BuildIndex(edges, (e: Edge) => IsOutgoing(e, kind, srcKind, dstKind), (e: Edge) => e.srcId);
  }

  ghost predicate Links(edges: seq<Edge>, kind: string, srcKind: string, dstKind: string, src: string, dst: string) {
    exists e :: e in edges && IsOutgoing(e, kind, srcKind, dstKind) && e.srcId == src && e.dstId == dst
  }

  function Ids(out: map<string, seq<string>>, src: string): seq<string> {
    if src in out then out[src] else []
  }

  method OutgoingDstIds(edges: seq<Edge>, kind: string, srcKind: string, dstKind: string)
    returns (out: map<string, seq<string>>)
    ensures forall src, dst ::
      dst in Ids(out, src) <==> Links(edges, kind, srcKind, dstKind, src, dst)
    ensures LinkedOnce(edges, kind, srcKind, dstKind) ==> forall src :: Once(Ids(out, src))
  {
    hide Links, LinkedOnce, Once;
    NothingRepeated();
    out := map[];
    assert edges[..0] == [];
    forall src, dst ensures !Links([], kind, srcKind, dstKind, src, dst) { NoLinks(kind, srcKind, dstKind, src, dst); }
    for i := 0 to |edges|
      invariant forall src, dst ::
        dst in Ids(out, src) <==> Links(edges[..i], kind, srcKind, dstKind, src, dst)
      invariant LinkedOnce(edges, kind, srcKind, dstKind) ==> forall src :: Once(Ids(out, src))
    {
      var e := edges[i];
      assert edges[..i + 1] == edges[..i] + [e];
      forall src, dst
        ensures Links(edges[..i + 1], kind, srcKind, dstKind, src, dst) <==>
          Links(edges[..i], kind, srcKind, dstKind, src, dst)
          || (IsOutgoing(e, kind, srcKind, dstKind) && e.srcId == src && e.dstId == dst)
      {
        LinksStep(edges[..i], e, kind, srcKind, dstKind, src, dst);
      }
      ghost var before := out;
      if IsOutgoing(e, kind, srcKind, dstKind) {
        if LinkedOnce(edges, kind, srcKind, dstKind) {
          NotLinkedYet(edges, i, kind, srcKind, dstKind);
          AppendNew(Ids(out, e.srcId), e.dstId);
        }
        out := out[e.srcId := Ids(out, e.srcId) + [e.dstId]];
        assert forall src :: Ids(out, src) == if src == e.srcId then Ids(before, src) + [e.dstId] else Ids(before, src);
      }
      forall src, dst ensures dst in Ids(out, src) <==> Links(edges[..i + 1], kind, srcKind, dstKind, src, dst) {
        assert dst in Ids(before, src) <==> Links(edges[..i], kind, srcKind, dstKind, src, dst);
      }
    }
    assert edges[..|edges|] == edges;
  }

  lemma NothingRepeated()
    ensures Once<string>([])
  {
  }

  lemma AppendNew(s: seq<string>, x: string)
    requires Once(s) && x !in s
    ensures Once(s + [x])
  {
  }

  lemma NotLinkedYet(edges: seq<Edge>, i: nat, kind: string, srcKind: string, dstKind: string)
    requires LinkedOnce(edges, kind, srcKind, dstKind) && i < |edges| && IsOutgoing(edges[i], kind, srcKind, dstKind)
    ensures !Links(edges[..i], kind, srcKind, dstKind, edges[i].srcId, edges[i].dstId)
  {
    var e := edges[i];
    forall x | x in edges[..i] && IsOutgoing(x, kind, srcKind, dstKind) ensures x.srcId != e.srcId || x.dstId != e.dstId {
      var j :| 0 <= j < i && edges[..i][j] == x;
      assert edges[j] == x;
    }
  }

  lemma NoLinks(kind: string, srcKind: string, dstKind: string, src: string, dst: string)
    ensures !Links([], kind, srcKind, dstKind, src, dst)
  {
  }

  lemma LinksStep(edges: seq<Edge>, e: Edge, kind: string, srcKind: string, dstKind: string, src: string, dst: string)
    ensures Links(edges + [e], kind, srcKind, dstKind, src, dst) <==>
      Links(edges, kind, srcKind, dstKind, src, dst)
      || (IsOutgoing(e, kind, srcKind, dstKind) && e.srcId == src && e.dstId == dst)
  {
    assert e in edges + [e];
    if x :| x in edges && IsOutgoing(x, kind, srcKind, dstKind) && x.srcId == src && x.dstId == dst {
      assert x in edges + [e];
    }
  }
}
