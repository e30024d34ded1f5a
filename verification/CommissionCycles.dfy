/** Commission farming: counting cash-in / cash-out cycles per counterparty with a scan that skips what it has used. */
module CommissionCycles {
  import opened Basics
  import opened AgentWindow
  import opened GraphIndex

  const CycleWindowMs := 10 * 60 * 1000

  predicate IsMove(t: Txn) { t.counterparty != "" && (t.kind == "cash_in" || t.kind == "cash_out") }

  /** b, coming right after a, completes a cycle. */
  predicate IsCycle(a: Txn, b: Txn) {
    a.kind == "cash_in" && b.kind == "cash_out" && 0 < b.ts - a.ts <= CycleWindowMs
  }

  function Time(): Txn -> int { (t: Txn) => t.ts }

  // ---------- What a cycle is, on the raw window ----------

  /** Position i comes before position j: earlier time, then earlier arrival. */
  predicate Before(txns: seq<Txn>, i: nat, j: nat)
    requires i < |txns| && j < |txns|
  {
    txns[i].ts < txns[j].ts || (txns[i].ts == txns[j].ts && i < j)
  }

  predicate SameCustomer(txns: seq<Txn>, i: nat, j: nat)
    requires i < |txns| && j < |txns|
  {
    IsMove(txns[i]) && IsMove(txns[j]) && txns[i].counterparty == txns[j].counterparty
  }

  /** Position m is a cash movement of i's counterparty strictly between i and j. */
  predicate Between(txns: seq<Txn>, i: nat, m: nat, j: nat)
    requires i < |txns| && j < |txns| && m < |txns|
  {
    SameCustomer(txns, i, m) && Before(txns, i, m) && Before(txns, m, j)
  }

  /** j holds the cash-out that immediately follows the cash-in at i for the same counterparty, soon enough. */
  ghost predicate Cycle(txns: seq<Txn>, i: nat, j: nat) {
    && i < |txns| && j < |txns|
    && SameCustomer(txns, i, j) && Before(txns, i, j) && IsCycle(txns[i], txns[j])
    && forall m: nat :: m < |txns| ==> !Between(txns, i, m, j)
  }

  ghost predicate Opens(txns: seq<Txn>, i: nat) { exists j: nat :: Cycle(txns, i, j) }

  ghost predicate Closes(txns: seq<Txn>, i: nat) { exists j: nat :: Cycle(txns, j, i) }

  ghost predicate InCycle(txns: seq<Txn>, i: nat) { Opens(txns, i) || Closes(txns, i) }

  /** The sum of w over the positions below n. */
  ghost function SumBelow(n: nat, w: nat -> int): int {
    if n == 0 then 0 else SumBelow(n - 1, w) + w(n - 1)
  }

  ghost function OneIfOpens(txns: seq<Txn>): nat -> int { (i: nat) => if Opens(txns, i) then 1 else 0 }

  ghost function OneIfUsed(txns: seq<Txn>): nat -> int { (i: nat) => if InCycle(txns, i) then 1 else 0 }

  ghost function AmountIfUsed(txns: seq<Txn>): nat -> int {
    (i: nat) => if i < |txns| && InCycle(txns, i) then txns[i].amount else 0
  }

  ghost function Amounts(txns: seq<Txn>): nat -> int { (i: nat) => if i < |txns| then txns[i].amount else 0 }

  /** A cycle, spelled out on the window. */
  lemma CycleMeans(txns: seq<Txn>, i: nat, j: nat)
    ensures Cycle(txns, i, j) <==>
      && i < |txns| && j < |txns|
      && txns[i].kind == "cash_in" && txns[j].kind == "cash_out"
      && txns[i].counterparty == txns[j].counterparty != ""
      && 0 < txns[j].ts - txns[i].ts <= 600000
      && forall m: nat :: m < |txns| && txns[m].counterparty == txns[i].counterparty && txns[m].kind in {"cash_in", "cash_out"} ==>
           || txns[m].ts < txns[i].ts || (txns[m].ts == txns[i].ts && m <= i)
           || txns[j].ts < txns[m].ts || (txns[m].ts == txns[j].ts && j <= m)
  {
    if i < |txns| && j < |txns| && SameCustomer(txns, i, j) {
      forall m: nat | m < |txns| ensures Between(txns, i, m, j) <==>
        txns[m].counterparty == txns[i].counterparty && txns[m].kind in {"cash_in", "cash_out"}
        && (txns[i].ts < txns[m].ts || (txns[i].ts == txns[m].ts && i < m))
        && (txns[m].ts < txns[j].ts || (txns[m].ts == txns[j].ts && m < j)) {}
    }
  }

  /** No transaction takes part in two cycles. */
  lemma CyclesAreDisjoint(txns: seq<Txn>, i: nat, j: nat, k: nat, l: nat)
    requires Cycle(txns, i, j) && Cycle(txns, k, l)
    requires i == k || i == l || j == k || j == l
    ensures i == k && j == l
  {
    assert i == k ==> !Between(txns, i, j, l) && !Between(txns, i, l, j);
    assert j == l ==> !Between(txns, i, k, j) && !Between(txns, k, i, l);
  }

  // ---------- One counterparty's transactions ----------

  predicate OpensAt(s: seq<Txn>, k: nat) { k + 1 < |s| && IsCycle(s[k], s[k + 1]) }

  predicate UsedAt(s: seq<Txn>, k: nat) { OpensAt(s, k) || (k > 0 && OpensAt(s, k - 1)) }

  ghost function OpenCount(s: seq<Txn>): nat -> int { (k: nat) => if OpensAt(s, k) then 1 else 0 }

  ghost function UsedCount(s: seq<Txn>): nat -> int { (k: nat) => if UsedAt(s, k) then 1 else 0 }

  ghost function UsedAmount(s: seq<Txn>): nat -> int { (k: nat) => if k < |s| && UsedAt(s, k) then s[k].amount else 0 }

  /** The scan over one counterparty, consuming both ends of every cycle it meets. */
  method ScanCycles(s: seq<Txn>) returns (cycles: nat, amount: int)
    ensures cycles == SumBelow(|s|, OpenCount(s))
    ensures 2 * cycles == SumBelow(|s|, UsedCount(s))
    ensures amount == SumBelow(|s|, UsedAmount(s))
  {
    cycles, amount := 0, 0;
    var i := 0;
    while i < |s| - 1
      invariant 0 <= i <= |s|
      invariant i > 0 ==> !OpensAt(s, i - 1)
      invariant cycles == SumBelow(i, OpenCount(s))
      invariant 2 * cycles == SumBelow(i, UsedCount(s))
      invariant amount == SumBelow(i, UsedAmount(s))
    {
      if IsCycle(s[i], s[i + 1]) {
        assert OpensAt(s, i) && !OpensAt(s, i + 1) && UsedAt(s, i) && UsedAt(s, i + 1);
        Unfold(i, OpenCount(s));
        Unfold(i, UsedCount(s));
        Unfold(i, UsedAmount(s));
        cycles := cycles + 1;
        amount := amount + s[i].amount + s[i + 1].amount;
        i := i + 2;
      } else {
        i := i + 1;
      }
    }
  }

  lemma Unfold(i: nat, w: nat -> int)
    ensures SumBelow(i + 2, w) == SumBelow(i, w) + w(i) + w(i + 1)
  {
    assert SumBelow(i + 2, w) == SumBelow(i + 1, w) + w(i + 1);
  }

  // ---------- Transactions that remember their position ----------

  datatype Placed = Placed(pos: nat, txn: Txn)

  function Place(txns: seq<Txn>): (r: seq<Placed>)
    ensures |r| == |txns| && forall i :: 0 <= i < |r| ==> r[i] == Placed(i, txns[i])
  {
    seq(|txns|, i requires 0 <= i < |txns| => Placed(i, txns[i]))
  }

  function Txns(q: seq<Placed>): (r: seq<Txn>)
    ensures |r| == |q| && forall k :: 0 <= k < |q| ==> r[k] == q[k].txn
  {
    seq(|q|, k requires 0 <= k < |q| => q[k].txn)
  }

  function PlacedMove(): Placed -> bool { (x: Placed) => IsMove(x.txn) }

  function PlacedCustomer(): Placed -> string { (x: Placed) => x.txn.counterparty }

  function PlacedTime(): Placed -> int { (x: Placed) => x.txn.ts }

  function Group(txns: seq<Txn>, k: string): seq<Placed> { WithKey(Place(txns), PlacedMove(), PlacedCustomer(), k) }

  predicate Precedes(x: Placed, y: Placed) {
    x.txn.ts < y.txn.ts || (x.txn.ts == y.txn.ts && x.pos < y.pos)
  }

  /** Every earlier entry precedes every later one. */
  ghost predicate InOrder(q: seq<Placed>) {
    forall a, b :: 0 <= a < b < |q| ==> Precedes(q[a], q[b])
  }

  lemma {:induction false} InsertInOrder(q: seq<Placed>, x: Placed)
    requires InOrder(q) && forall y :: y in q ==> y.pos < x.pos
    ensures InOrder(Insert(q, x, PlacedTime()))
    ensures forall y :: y in Insert(q, x, PlacedTime()) <==> y in q || y == x
  {
    var r := Insert(q, x, PlacedTime());
    if q != [] && x.txn.ts >= q[0].txn.ts {
      InsertInOrder(q[1..], x);
      assert r == [q[0]] + Insert(q[1..], x, PlacedTime());
      forall y ensures y in r <==> y in q || y == x { assert y in q <==> y == q[0] || y in q[1..]; }
      forall b | 0 < b < |r| ensures Precedes(r[0], r[b]) {
        assert r[b] in Insert(q[1..], x, PlacedTime());
      }
    }
  }

  ghost predicate Increasing(q: seq<Placed>) {
    forall a, b :: 0 <= a < b < |q| ==> q[a].pos < q[b].pos
  }

  /** The stable sort by time orders a list of increasing positions by time, then position. */
  lemma {:induction false} SortInOrder(q: seq<Placed>)
    requires Increasing(q)
    ensures InOrder(Sort(q, PlacedTime()))
  {
    if q != [] {
      var init, last := q[..|q| - 1], q[|q| - 1];
      SortInOrder(init);
      forall y | y in Sort(init, PlacedTime()) ensures y.pos < last.pos { SortHas(init, PlacedTime(), y); }
      InsertInOrder(Sort(init, PlacedTime()), last);
    }
  }

  lemma {:induction false} InsertTxns(q: seq<Placed>, x: Placed)
    ensures Txns(Insert(q, x, PlacedTime())) == Insert(Txns(q), x.txn, Time())
  {
    if q != [] && x.txn.ts >= q[0].txn.ts {
      InsertTxns(q[1..], x);
      assert Txns(q)[1..] == Txns(q[1..]);
    }
  }

  /** Sorting does not look at positions. */
  lemma {:induction false} SortTxns(q: seq<Placed>)
    ensures Txns(Sort(q, PlacedTime())) == Sort(Txns(q), Time())
  {
    if q != [] {
      var n := |q| - 1;
      SortTxns(q[..n]);
      InsertTxns(Sort(q[..n], PlacedTime()), q[n]);
      assert Txns(q)[..n] == Txns(q[..n]);
    }
  }

  lemma {:induction false} GroupIncreasing(s: seq<Placed>, k: string)
    requires Increasing(s)
    ensures Increasing(WithKey(s, PlacedMove(), PlacedCustomer(), k))
  {
    if s != [] {
      GroupIncreasing(s[1..], k);
      var rest := WithKey(s[1..], PlacedMove(), PlacedCustomer(), k);
      forall x | x in rest ensures s[0].pos < x.pos {
        WithKeyHas(s[1..], PlacedMove(), PlacedCustomer(), k, x);
      }
      var one := One(s[0], PlacedMove(), PlacedCustomer(), k);
      assert WithKey(s, PlacedMove(), PlacedCustomer(), k) == one + rest;
      forall a, b | 0 <= a < b < |one + rest| ensures (one + rest)[a].pos < (one + rest)[b].pos {
        assert (one + rest)[b] == rest[b - |one|];
      }
    }
  }

  /** The sorted transactions of counterparty k, with their positions. */
  function Ordered(txns: seq<Txn>, k: string): seq<Placed> { Sort(Group(txns, k), PlacedTime()) }

  lemma OrderedFacts(txns: seq<Txn>, k: string)
    ensures InOrder(Ordered(txns, k))
    ensures forall x :: x in Ordered(txns, k) <==>
      x.pos < |txns| && x.txn == txns[x.pos] && IsMove(x.txn) && x.txn.counterparty == k
  {
    hide WithKey, Sort;
    GroupIncreasing(Place(txns), k);
    SortInOrder(Group(txns, k));
    forall x ensures x in Ordered(txns, k) <==>
      x.pos < |txns| && x.txn == txns[x.pos] && IsMove(x.txn) && x.txn.counterparty == k
    {
      SortHas(Group(txns, k), PlacedTime(), x);
      WithKeyHas(Place(txns), PlacedMove(), PlacedCustomer(), k, x);
      if x.pos < |txns| && x.txn == txns[x.pos] { assert Place(txns)[x.pos] == x; }
    }
  }

  /** Neighbours in a counterparty's sorted list that qualify are exactly the cycles of the raw window. */
  lemma NeighboursAreCycles(txns: seq<Txn>, k: string, a: nat, b: nat)
    requires var q := Ordered(txns, k); a < |q| && b < |q|
    ensures var q := Ordered(txns, k);
      Cycle(txns, q[a].pos, q[b].pos) <==> b == a + 1 && IsCycle(q[a].txn, q[b].txn)
  {
    hide Ordered;
    OrderedFacts(txns, k);
    var q := Ordered(txns, k);
    assert q[a] in q && q[b] in q;
    var i, j := q[a].pos, q[b].pos;
    if a + 1 < b {
      assert q[a + 1] in q;
      assert Between(txns, i, q[a + 1].pos, j);
    }
    if b == a + 1 {
      forall m: nat | m < |txns| ensures !Between(txns, i, m, j) {
        assert Placed(m, txns[m]) in q <==> SameCustomer(txns, i, m);
      }
    }
  }

  lemma UsedAtMeansInCycle(txns: seq<Txn>, k: string, a: nat)
    requires a < |Ordered(txns, k)|
    ensures var q := Ordered(txns, k);
      && (Opens(txns, q[a].pos) <==> OpensAt(Txns(q), a))
      && (InCycle(txns, q[a].pos) <==> UsedAt(Txns(q), a))
  {
    hide Ordered, Cycle;
    var q := Ordered(txns, k);
    var i := q[a].pos;
    if OpensAt(Txns(q), a) { NeighboursAreCycles(txns, k, a, a + 1); }
    if a > 0 && OpensAt(Txns(q), a - 1) { NeighboursAreCycles(txns, k, a - 1, a); }
    if j: nat :| Cycle(txns, i, j) {
      var b := IndexOf(txns, k, a, i, j);
      NeighboursAreCycles(txns, k, a, b);
    }
    if j: nat :| Cycle(txns, j, i) {
      var b := IndexOf(txns, k, a, j, i);
      NeighboursAreCycles(txns, k, b, a);
    }
  }

  /** The other end of a cycle is in the same sorted list. */
  lemma IndexOf(txns: seq<Txn>, k: string, a: nat, i: nat, j: nat) returns (b: nat)
    requires Cycle(txns, i, j)
    requires a < |Ordered(txns, k)| && Ordered(txns, k)[a].pos in {i, j}
    ensures b < |Ordered(txns, k)|
    ensures Ordered(txns, k)[b].pos == if Ordered(txns, k)[a].pos == i then j else i
  {
    hide Ordered;
    OrderedFacts(txns, k);
    var q := Ordered(txns, k);
    assert q[a] in q;
    var other := if q[a].pos == i then j else i;
    assert Placed(other, txns[other]) in q;
    b :| 0 <= b < |q| && q[b] == Placed(other, txns[other]);
  }

  // ---------- Adding up the counterparties ----------

  ghost function SumOf(q: seq<Placed>, w: nat -> int): int {
    if q == [] then 0 else SumOf(q[..|q| - 1], w) + w(q[|q| - 1].pos)
  }

  lemma {:induction false} SumOfConcat(p: seq<Placed>, q: seq<Placed>, w: nat -> int)
    ensures SumOf(p + q, w) == SumOf(p, w) + SumOf(q, w)
  {
    if q == [] {
      assert p + q == p;
    } else {
      assert (p + q)[..|p + q| - 1] == p + q[..|q| - 1];
      SumOfConcat(p, q[..|q| - 1], w);
    }
  }

  lemma SumOfOne(x: Placed, w: nat -> int)
    ensures SumOf([x], w) == w(x.pos)
  {
    assert [x][..0] == [];
  }

  lemma {:induction false} SumOfInsert(q: seq<Placed>, x: Placed, w: nat -> int)
    ensures SumOf(Insert(q, x, PlacedTime()), w) == SumOf(q, w) + w(x.pos)
  {
    SumOfOne(x, w);
    if q == [] || x.txn.ts < q[0].txn.ts {
      SumOfConcat([x], q, w);
    } else {
      SumOfInsert(q[1..], x, w);
      SumOfConcat([q[0]], Insert(q[1..], x, PlacedTime()), w);
      SumOfConcat([q[0]], q[1..], w);
      assert q == [q[0]] + q[1..];
    }
  }

  lemma {:induction false} SumOfSort(q: seq<Placed>, w: nat -> int)
    ensures SumOf(Sort(q, PlacedTime()), w) == SumOf(q, w)
  {
    if q != [] {
      SumOfSort(q[..|q| - 1], w);
      SumOfInsert(Sort(q[..|q| - 1], PlacedTime()), q[|q| - 1], w);
    }
  }

  /** The sum of w over the cash movements of the counterparties in ks. */
  ghost function SumFor(txns: seq<Txn>, n: nat, ks: set<string>, w: nat -> int): int
    requires n <= |txns|
  {
    if n == 0 then 0
    else SumFor(txns, n - 1, ks, w) + (if IsMove(txns[n - 1]) && txns[n - 1].counterparty in ks then w(n - 1) else 0)
  }

  lemma NoGroup(k: string)
    ensures WithKey<Placed, string>([], PlacedMove(), PlacedCustomer(), k) == []
  {
  }

  lemma {:induction false} OneMoreCustomer(txns: seq<Txn>, n: nat, ks: set<string>, k: string, w: nat -> int)
    requires n <= |txns| && k !in ks
    ensures SumFor(txns, n, ks + {k}, w) ==
      SumFor(txns, n, ks, w) + SumOf(WithKey(Place(txns)[..n], PlacedMove(), PlacedCustomer(), k), w)
  {
    hide WithKey;
    if n == 0 {
      assert Place(txns)[..0] == [];
      NoGroup(k);
    } else {
      var all := Place(txns);
      OneMoreCustomer(txns, n - 1, ks, k, w);
      assert all[..n] == all[..n - 1] + [all[n - 1]];
      WithKeyAppend(all[..n - 1], all[n - 1], PlacedMove(), PlacedCustomer(), k);
      SumOfConcat(WithKey(all[..n - 1], PlacedMove(), PlacedCustomer(), k),
                  One(all[n - 1], PlacedMove(), PlacedCustomer(), k), w);
      SumOfOne(all[n - 1], w);
    }
  }

  lemma {:induction false} SumForAll(txns: seq<Txn>, n: nat, ks: set<string>, w: nat -> int)
    requires n <= |txns|
    requires forall i :: 0 <= i < n ==> w(i) == 0 || (IsMove(txns[i]) && txns[i].counterparty in ks)
    ensures SumFor(txns, n, ks, w) == SumBelow(n, w)
  {
    if n > 0 { SumForAll(txns, n - 1, ks, w); }
  }

  lemma {:induction false} SumPointwise(q: seq<Placed>, v: nat -> int, w: nat -> int)
    requires forall a: nat :: a < |q| ==> v(a) == w(q[a].pos)
    ensures SumBelow(|q|, v) == SumOf(q, w)
  {
    if q != [] { SumPointwise(q[..|q| - 1], v, w); }
  }

  /** What the scan finds for one counterparty, said about the raw window. */
  lemma ScanOfGroup(txns: seq<Txn>, k: string)
    ensures var s := Sort(Txns(Group(txns, k)), Time());
      && SumBelow(|s|, OpenCount(s)) == SumOf(Group(txns, k), OneIfOpens(txns))
      && SumBelow(|s|, UsedCount(s)) == SumOf(Group(txns, k), OneIfUsed(txns))
      && SumBelow(|s|, UsedAmount(s)) == SumOf(Group(txns, k), AmountIfUsed(txns))
  {
    hide SumBelow, SumOf, Cycle, Opens, Closes, InCycle, OpensAt, UsedAt, WithKey, Sort;
    var q := Ordered(txns, k);
    var s := Txns(q);
    SortTxns(Group(txns, k));
    OrderedFacts(txns, k);
    forall a: nat | a < |q|
      ensures OpenCount(s)(a) == OneIfOpens(txns)(q[a].pos)
      ensures UsedCount(s)(a) == OneIfUsed(txns)(q[a].pos)
      ensures UsedAmount(s)(a) == AmountIfUsed(txns)(q[a].pos)
    {
      assert q[a] in q;
      UsedAtMeansInCycle(txns, k, a);
    }
    SumPointwise(q, OpenCount(s), OneIfOpens(txns));
    SumPointwise(q, UsedCount(s), OneIfUsed(txns));
    SumPointwise(q, UsedAmount(s), AmountIfUsed(txns));
    SumOfSort(Group(txns, k), OneIfOpens(txns));
    SumOfSort(Group(txns, k), OneIfUsed(txns));
    SumOfSort(Group(txns, k), AmountIfUsed(txns));
  }

  /** Cycles only involve cash movements of known counterparties. */
  lemma OnlyMovesCount(txns: seq<Txn>, ks: set<string>, w: nat -> int)
    requires forall t :: t in txns && IsMove(t) ==> t.counterparty in ks
    requires w in {OneIfOpens(txns), OneIfUsed(txns), AmountIfUsed(txns)}
    ensures SumFor(txns, |txns|, ks, w) == SumBelow(|txns|, w)
  {
    hide SumFor, SumBelow;
    forall i | 0 <= i < |txns| ensures w(i) == 0 || (IsMove(txns[i]) && txns[i].counterparty in ks) {
      assert txns[i] in txns;
    }
    SumForAll(txns, |txns|, ks, w);
  }

  lemma {:induction false} SumGrows(n: nat, v: nat -> int, w: nat -> int)
    requires forall i: nat :: i < n ==> v(i) <= w(i)
    ensures SumBelow(n, v) <= SumBelow(n, w)
  {
    if n > 0 { SumGrows(n - 1, v, w); }
  }

  lemma {:induction false} SumIsCardinality(n: nat, w: nat -> int, s: set<nat>)
    requires forall i: nat :: w(i) == (if i in s then 1 else 0) || i >= n
    requires forall i :: i in s ==> i < n
    ensures SumBelow(n, w) == |s|
  {
    if n == 0 {
      assert s == {};
    } else {
      SumIsCardinality(n - 1, w, s - {n - 1});
    }
  }

  /** The counts are numbers of positions. */
  lemma CountsAreCardinalities(txns: seq<Txn>)
    ensures SumBelow(|txns|, OneIfOpens(txns)) == |set i: nat | i < |txns| && Opens(txns, i)|
    ensures SumBelow(|txns|, OneIfUsed(txns)) == |set i: nat | i < |txns| && InCycle(txns, i)|
  {
    hide Opens, InCycle, SumBelow;
    SumIsCardinality(|txns|, OneIfOpens(txns), set i: nat | i < |txns| && Opens(txns, i));
    SumIsCardinality(|txns|, OneIfUsed(txns), set i: nat | i < |txns| && InCycle(txns, i));
  }

  /** With amounts that are not negative, what went through cycles is at most what went through the window. */
  lemma {:induction false} CycleAmountIsBounded(txns: seq<Txn>)
    requires forall t :: t in txns ==> t.amount >= 0
    ensures 0 <= SumBelow(|txns|, AmountIfUsed(txns)) <= SumBelow(|txns|, Amounts(txns))
  {
    hide InCycle;
    forall i: nat | i < |txns| ensures 0 <= AmountIfUsed(txns)(i) <= Amounts(txns)(i) { assert txns[i] in txns; }
    SumGrows(|txns|, AmountIfUsed(txns), Amounts(txns));
    SumGrows(|txns|, _ => 0, AmountIfUsed(txns));
    SumOfZeros(|txns|);
  }

  lemma {:induction false} SumOfZeros(n: nat)
    ensures SumBelow(n, _ => 0) == 0
  {
    if n > 0 { SumOfZeros(n - 1); }
  }

  // ---------- The detector ----------

  datatype Farming = Farming(score: real, cycles: nat, cycleAmount: int, txnCount: nat)

  /** The cash movements of counterparty k among the first n transactions, in arrival order. */
  ghost function Row(txns: seq<Txn>, n: nat, k: string): seq<Txn>
    requires n <= |txns|
  {
    Txns(WithKey(Place(txns)[..n], PlacedMove(), PlacedCustomer(), k))
  }

  lemma RowStep(txns: seq<Txn>, n: nat, k: string)
    requires n < |txns|
    ensures Row(txns, n + 1, k) ==
      Row(txns, n, k) + (if IsMove(txns[n]) && txns[n].counterparty == k then [txns[n]] else [])
  {
    var all := Place(txns);
    assert all[..n + 1] == all[..n] + [all[n]];
    WithKeyAppend(all[..n], all[n], PlacedMove(), PlacedCustomer(), k);
  }

  /** The keys of rows, each once. */
  ghost predicate ListsKeys(order: seq<string>, rows: map<string, seq<Txn>>) {
    && (forall k :: k in order <==> k in rows)
    && (forall a, b :: 0 <= a < b < |order| ==> order[a] != order[b])
  }

  /** Under each key its rows, and nothing for any other key. */
  ghost predicate Collected(txns: seq<Txn>, n: nat, rows: map<string, seq<Txn>>)
    requires n <= |txns|
  {
    && (forall i :: 0 <= i < n && IsMove(txns[i]) ==> txns[i].counterparty in rows)
    && (forall k :: Row(txns, n, k) == if k in rows then rows[k] else [])
  }

  function Filed(rows: map<string, seq<Txn>>, t: Txn): map<string, seq<Txn>> {
    rows[t.counterparty := (if t.counterparty in rows then rows[t.counterparty] else []) + [t]]
  }

  lemma NothingCollected(txns: seq<Txn>)
    ensures ListsKeys([], map[]) && Collected(txns, 0, map[])
  {
    assert Place(txns)[..0] == [];
  }

  lemma CollectStep(txns: seq<Txn>, n: nat, rows: map<string, seq<Txn>>)
    requires n < |txns| && Collected(txns, n, rows)
    ensures Collected(txns, n + 1, if IsMove(txns[n]) then Filed(rows, txns[n]) else rows)
  {
    hide Row, IsMove;
    var next := if IsMove(txns[n]) then Filed(rows, txns[n]) else rows;
    forall k ensures Row(txns, n + 1, k) == if k in next then next[k] else [] {
      RowStep(txns, n, k);
      assert Row(txns, n, k) == if k in rows then rows[k] else [];
    }
  }

  lemma KeysStep(order: seq<string>, rows: map<string, seq<Txn>>, t: Txn)
    requires ListsKeys(order, rows)
    ensures ListsKeys(if t.counterparty in rows then order else order + [t.counterparty], Filed(rows, t))
  {
  }

  method CollectMoves(txns: seq<Txn>) returns (order: seq<string>, rows: map<string, seq<Txn>>)
    ensures ListsKeys(order, rows) && Collected(txns, |txns|, rows)
  {
    hide Collected, ListsKeys, Filed, IsMove;
    order, rows := [], map[];
    NothingCollected(txns);
    for i := 0 to |txns|
      invariant ListsKeys(order, rows) && Collected(txns, i, rows)
    {
      CollectStep(txns, i, rows);
      var t := txns[i];
      if IsMove(t) {
        KeysStep(order, rows, t);
        if t.counterparty !in rows { order := order + [t.counterparty]; }
        rows := Filed(rows, t);
      }
    }
  }

  method DetectCommissionFarming(txns: seq<Txn>, minPairs: int) returns (r: Option<Farming>)
    ensures var cycles := SumBelow(|txns|, OneIfOpens(txns));
      && 2 * cycles == SumBelow(|txns|, OneIfUsed(txns))
      && (r.Some? <==> cycles >= minPairs)
      && (r.Some? ==>
            && r.value.cycles == cycles
            && r.value.cycleAmount == SumBelow(|txns|, AmountIfUsed(txns))
            && r.value.txnCount == |txns|
            && r.value.score == RealMin(0.99, 0.6 + 0.05 * (cycles - minPairs) as real)
            && 0.6 <= r.value.score <= 0.99
            && (r.value.score == 0.99 <==> cycles >= minPairs + 8))
  {
    hide SumBelow, SumFor, Row, OneIfOpens, OneIfUsed, AmountIfUsed, Sort, OpenCount, UsedCount, UsedAmount;
    var order, rows := CollectMoves(txns);
    var cycles: nat, amount := 0, 0;
    ghost var done: set<string> := {};
    NothingYet(txns, |txns|, OneIfOpens(txns));
    NothingYet(txns, |txns|, OneIfUsed(txns));
    NothingYet(txns, |txns|, AmountIfUsed(txns));
    for i := 0 to |order|
      invariant forall k :: k in done <==> k in order[..i]
      invariant cycles == SumFor(txns, |txns|, done, OneIfOpens(txns))
      invariant 2 * cycles == SumFor(txns, |txns|, done, OneIfUsed(txns))
      invariant amount == SumFor(txns, |txns|, done, AmountIfUsed(txns))
    {
      var k := order[i];
      assert order[..i + 1] == order[..i] + [k];
      var c, a := ScanCycles(Sort(rows[k], (t: Txn) => t.ts));
      cycles, amount := cycles + c, amount + a;
      assert rows[k] == Row(txns, |txns|, k);
      AddCustomer(txns, done, k, rows[k]);
      done := done + {k};
    }
    assert order[..|order|] == order;
    OnlyMovesCount(txns, done, OneIfOpens(txns));
    OnlyMovesCount(txns, done, OneIfUsed(txns));
    OnlyMovesCount(txns, done, AmountIfUsed(txns));
    if cycles < minPairs { return None; }
    var raw := 0.6 + 0.05 * (cycles - minPairs) as real;
    return Some(Farming(if raw < 0.99 then raw else 0.99, cycles, amount, |txns|));
  }

  lemma {:induction false} NothingYet(txns: seq<Txn>, n: nat, w: nat -> int)
    requires n <= |txns|
    ensures SumFor(txns, n, {}, w) == 0
  {
    if n > 0 { NothingYet(txns, n - 1, w); }
  }

  lemma AddCustomer(txns: seq<Txn>, done: set<string>, k: string, rows: seq<Txn>)
    requires k !in done
    requires rows == Row(txns, |txns|, k)
    ensures var s := Sort(rows, (t: Txn) => t.ts); var n := |txns|;
      && SumFor(txns, n, done + {k}, OneIfOpens(txns)) ==
           SumFor(txns, n, done, OneIfOpens(txns)) + SumBelow(|s|, OpenCount(s))
      && SumFor(txns, n, done + {k}, OneIfUsed(txns)) ==
           SumFor(txns, n, done, OneIfUsed(txns)) + SumBelow(|s|, UsedCount(s))
      && SumFor(txns, n, done + {k}, AmountIfUsed(txns)) ==
           SumFor(txns, n, done, AmountIfUsed(txns)) + SumBelow(|s|, UsedAmount(s))
  {
    hide SumBelow, SumFor, WithKey, OneIfOpens, OneIfUsed, AmountIfUsed, Sort, OpenCount, UsedCount, UsedAmount;
    assert Place(txns)[..|txns|] == Place(txns);
    ScanOfGroup(txns, k);
    OneMoreCustomer(txns, |txns|, done, k, OneIfOpens(txns));
    OneMoreCustomer(txns, |txns|, done, k, OneIfUsed(txns));
    OneMoreCustomer(txns, |txns|, done, k, AmountIfUsed(txns));
  }
}
