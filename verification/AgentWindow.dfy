/** Sliding window of recent transactions per agent: a trimmed deque refining the full append history. */
module AgentWindow {
  import opened Basics

  datatype Txn = Txn(
    id: string, kind: string, counterparty: string, amount: int, ts: int)

  /** Transactions at or after the cutoff, in arrival order. */
  function Since(h: seq<Txn>, cutoff: int): (r: seq<Txn>)
    ensures forall t :: t in r <==> t in h && t.ts >= cutoff
  {
    if h == [] then []
    else Since(h[..|h| - 1], cutoff) + (if h[|h| - 1].ts >= cutoff then [h[|h| - 1]] else [])
  }

  lemma {:induction false} SinceConcat(g: seq<Txn>, h: seq<Txn>, cutoff: int)
    ensures Since(g + h, cutoff) == Since(g, cutoff) + Since(h, cutoff)
  {
    if h == [] {
      assert g + h == g;
    } else {
      assert (g + h)[..|g + h| - 1] == g + h[..|h| - 1];
      SinceConcat(g, h[..|h| - 1], cutoff);
    }
  }

  lemma SinceOne(t: Txn, cutoff: int)
    ensures Since([t], cutoff) == if t.ts >= cutoff then [t] else []
  {
    assert [t][..0] == [];
  }

  lemma {:induction false} SinceNone(h: seq<Txn>, cutoff: int)
    requires forall t :: t in h ==> t.ts < cutoff
    ensures Since(h, cutoff) == []
  {
    if h != [] { SinceNone(h[..|h| - 1], cutoff); }
  }

  /** Latest timestamp seen, if any. */
  ghost predicate SeenUpTo(h: seq<Txn>, latest: int) {
    forall t :: t in h ==> t.ts <= latest
  }

  /** Entry i may be gone: it is beyond the last n entries, or older than the window before some transaction seen. */
  ghost predicate MayBeGone(h: seq<Txn>, i: nat, windowMs: int, n: nat)
    requires i < |h|
  {
    i < |h| - n || exists t :: t in h && h[i].ts < t.ts - windowMs
  }

  /** dq is a suffix of the history and everything before it may be gone. */
  ghost predicate IsTail(dq: seq<Txn>, h: seq<Txn>, windowMs: int, n: nat) {
    && |dq| <= |h|
    && dq == h[|h| - |dq|..]
    && forall i :: 0 <= i < |h| - |dq| ==> MayBeGone(h, i, windowMs, n)
  }

  ghost predicate Trimmed(dq: seq<Txn>, h: seq<Txn>, windowMs: int, n: nat) {
    IsTail(dq, h, windowMs, n) && |dq| <= n
  }

  lemma PushBack(dq: seq<Txn>, h: seq<Txn>, windowMs: int, n: nat, t: Txn)
    requires Trimmed(dq, h, windowMs, n) || dq == h == []
    ensures IsTail(dq + [t], h + [t], windowMs, n)
  {
    var h' := h + [t];
    forall i | 0 <= i < |h| - |dq| ensures MayBeGone(h', i, windowMs, n) {
      assert MayBeGone(h, i, windowMs, n);
      if u :| u in h && h[i].ts < u.ts - windowMs { assert u in h'; }
    }
  }

  lemma PopFront(dq: seq<Txn>, h: seq<Txn>, windowMs: int, n: nat, t: Txn)
    requires IsTail(dq, h, windowMs, n) && dq != [] && t in h
    requires dq[0].ts < t.ts - windowMs || |dq| > n
    ensures IsTail(dq[1..], h, windowMs, n)
  {
    assert MayBeGone(h, |h| - |dq|, windowMs, n);
  }

  /** Any view whose cutoff lies at or after every trimming cutoff sees exactly what an untrimmed store would
      show of the last n transactions. */
  lemma {:induction false} ViewRefinesHistory(dq: seq<Txn>, h: seq<Txn>, windowMs: int, n: nat, cutoff: int)
    requires Trimmed(dq, h, windowMs, n)
    requires SeenUpTo(h, cutoff + windowMs)
    ensures Since(dq, cutoff) == Since(LastN(h, n), cutoff)
  {
    var last := LastN(h, n);
    var dropped := last[..|last| - |dq|];
    assert last == dropped + dq;
    forall t | t in dropped ensures t.ts < cutoff {
      var k :| 0 <= k < |dropped| && dropped[k] == t;
      var i := |h| - |last| + k;
      assert h[i] == t && MayBeGone(h, i, windowMs, n);
    }
    SinceNone(dropped, cutoff);
    SinceConcat(dropped, dq, cutoff);
  }

  // ---------- The deque as a function of the history ----------

  function DropStale(dq: seq<Txn>, cutoff: int): seq<Txn> {
    if dq != [] && dq[0].ts < cutoff then DropStale(dq[1..], cutoff) else dq
  }

  /** Push, drop the stale front, cap the length. */
  function Push(dq: seq<Txn>, t: Txn, windowMs: int, n: nat): seq<Txn> {
    LastN(DropStale(dq + [t], t.ts - windowMs), n)
  }

  function Deque(h: seq<Txn>, windowMs: int, n: nat): seq<Txn> {
    if h == [] then [] else Push(Deque(h[..|h| - 1], windowMs, n), h[|h| - 1], windowMs, n)
  }

  lemma DequeStep(h: seq<Txn>, t: Txn, windowMs: int, n: nat)
    ensures Deque([], windowMs, n) == []
    ensures Deque(h + [t], windowMs, n) == Push(Deque(h, windowMs, n), t, windowMs, n)
  {
    assert (h + [t])[..|h|] == h;
  }

  /** One step of dropping. */
  lemma DropStaleStep(dq: seq<Txn>, cutoff: int)
    ensures DropStale([], cutoff) == []
    ensures dq != [] ==> DropStale(dq, cutoff) == if dq[0].ts < cutoff then DropStale(dq[1..], cutoff) else dq
  {
  }

  lemma {:induction false} DropStaleKeepsTail(dq: seq<Txn>, h: seq<Txn>, windowMs: int, n: nat, t: Txn)
    requires IsTail(dq, h, windowMs, n) && t in h
    ensures IsTail(DropStale(dq, t.ts - windowMs), h, windowMs, n)
    decreases |dq|
  {
    if dq != [] && dq[0].ts < t.ts - windowMs {
      PopFront(dq, h, windowMs, n, t);
      DropStaleKeepsTail(dq[1..], h, windowMs, n, t);
    }
  }

  lemma CapKeepsTail(dq: seq<Txn>, h: seq<Txn>, windowMs: int, n: nat)
    requires IsTail(dq, h, windowMs, n)
    ensures Trimmed(LastN(dq, n), h, windowMs, n)
  {
    if |dq| > n {
      var m := |h| - |dq|;
      assert LastN(dq, n) == h[m..][|dq| - n..] == h[|h| - n..];
    }
  }

  /** The deque is a suffix of the history, and everything before it was beyond the cap or too old when trimmed. */
  lemma {:induction false} DequeIsTrimmed(h: seq<Txn>, windowMs: int, n: nat)
    ensures Trimmed(Deque(h, windowMs, n), h, windowMs, n)
  {
    hide IsTail, Deque, DropStale, LastN;
    if h == [] {
      DequeStep(h, TxnAt(0), windowMs, n);
      NothingTrimmed(windowMs, n);
    } else {
      var init, t := h[..|h| - 1], h[|h| - 1];
      assert h == init + [t];
      DequeStep(init, t, windowMs, n);
      DequeIsTrimmed(init, windowMs, n);
      PushBack(Deque(init, windowMs, n), init, windowMs, n, t);
      DropStaleKeepsTail(Deque(init, windowMs, n) + [t], h, windowMs, n, t);
      CapKeepsTail(DropStale(Deque(init, windowMs, n) + [t], t.ts - windowMs), h, windowMs, n);
    }
  }

  lemma NothingTrimmed(windowMs: int, n: nat)
    ensures IsTail([], [], windowMs, n)
  {
  }

  // ---------- Exactly when the view is right ----------

  ghost predicate Refines(h: seq<Txn>, windowMs: int, n: nat, cutoff: int) {
    Since(Deque(h, windowMs, n), cutoff) == Since(LastN(h, n), cutoff)
  }

  /** The largest timestamp that can be seen without spoiling a view from the cutoff on. */
  ghost predicate Harmless(latest: int, windowMs: int, n: nat, cutoff: int) {
    || n == 0
    || (windowMs < 0 && latest < cutoff)
    || (windowMs >= 0 && (n == 1 || latest <= cutoff + windowMs))
  }

  /** A view from the cutoff on refines every history with timestamps up to latest, in any arrival order, exactly
      when latest is no more than the window ahead of the cutoff (or the deque is too short for it to matter). */
  lemma ViewRefinesIff(latest: int, windowMs: int, n: nat, cutoff: int)
    ensures (forall h :: SeenUpTo(h, latest) ==> Refines(h, windowMs, n, cutoff)) <==> Harmless(latest, windowMs, n, cutoff)
  {
    hide Deque, Since, LastN;
    if Harmless(latest, windowMs, n, cutoff) {
      forall h | SeenUpTo(h, latest) ensures Refines(h, windowMs, n, cutoff) {
        RefinesWhenHarmless(h, latest, windowMs, n, cutoff);
      }
    } else if windowMs < 0 {
      NegativeWindowHides(TxnAt(latest), windowMs, n, cutoff);
      assert SeenUpTo([TxnAt(latest)], latest);
    } else {
      FutureDatedTxnHidesHistory(TxnAt(cutoff), TxnAt(latest), windowMs, n, cutoff);
      assert SeenUpTo([TxnAt(cutoff), TxnAt(latest)], latest);
    }
  }

  function TxnAt(ts: int): Txn { Txn("", "cash_in", "", 0, ts) }

  lemma RefinesWhenHarmless(h: seq<Txn>, latest: int, windowMs: int, n: nat, cutoff: int)
    requires SeenUpTo(h, latest) && Harmless(latest, windowMs, n, cutoff)
    ensures Refines(h, windowMs, n, cutoff)
  {
    hide Since, Deque;
    DequeIsTrimmed(h, windowMs, n);
    if n <= 1 && windowMs >= 0 {
      ShortDeque(h, windowMs, n);
    } else if n > 0 && windowMs < 0 {
      SinceNone(Deque(h, windowMs, n), cutoff);
      SinceNone(LastN(h, n), cutoff);
    } else if n > 0 {
      ViewRefinesHistory(Deque(h, windowMs, n), h, windowMs, n, cutoff);
    }
  }

  /** A deque of at most one entry holds the last one, whatever its age. */
  lemma ShortDeque(h: seq<Txn>, windowMs: int, n: nat)
    requires n <= 1 && windowMs >= 0
    ensures Deque(h, windowMs, n) == LastN(h, n)
  {
    hide Deque, DropStale, LastN;
    if h == [] {
      NothingLast(n);
      DequeStep(h, TxnAt(0), windowMs, n);
    } else {
      var init, t := h[..|h| - 1], h[|h| - 1];
      assert h == init + [t];
      DequeStep(init, t, windowMs, n);
      KeepsLast(Deque(init, windowMs, n), t, t.ts - windowMs);
      LastOfShort(DropStale(Deque(init, windowMs, n) + [t], t.ts - windowMs), init, t, n);
    }
  }

  lemma NothingLast(n: nat)
    ensures LastN<Txn>([], n) == []
  {
  }

  lemma LastOfShort(r: seq<Txn>, init: seq<Txn>, t: Txn, n: nat)
    requires n <= 1 && r != [] && r[|r| - 1] == t
    ensures LastN(r, n) == LastN(init + [t], n)
  {
    assert LastN(r, n) == if n == 0 then [] else [t];
    assert LastN(init + [t], n) == if n == 0 then [] else [t];
  }

  lemma {:induction false} KeepsLast(dq: seq<Txn>, t: Txn, cutoff: int)
    requires t.ts >= cutoff
    ensures var r := DropStale(dq + [t], cutoff); r != [] && r[|r| - 1] == t
    decreases |dq|
  {
    if dq != [] && dq[0].ts < cutoff {
      assert (dq + [t])[1..] == dq[1..] + [t];
      KeepsLast(dq[1..], t, cutoff);
    }
  }

  lemma DropsEarlier(earlier: Txn, ahead: Txn, windowMs: int, n: nat)
    requires n >= 1 && earlier.ts < ahead.ts - windowMs && windowMs >= 0
    ensures Deque([earlier, ahead], windowMs, n) == [ahead]
  {
    hide Deque, DropStale;
    DequeStep([], earlier, windowMs, n);
    DequeStep([earlier], ahead, windowMs, n);
    assert [] + [earlier] == [earlier] && [earlier] + [ahead] == [earlier, ahead] && [earlier, ahead][1..] == [ahead];
    DropStaleStep([earlier], earlier.ts - windowMs);
    DropStaleStep([earlier, ahead], ahead.ts - windowMs);
    DropStaleStep([ahead], ahead.ts - windowMs);
  }

  /** A transaction dated further ahead than the window wipes out one that the view should still show. */
  lemma FutureDatedTxnHidesHistory(earlier: Txn, ahead: Txn, windowMs: int, n: nat, cutoff: int)
    requires n >= 2 && earlier.ts == cutoff && ahead.ts > cutoff + windowMs && windowMs >= 0
    ensures Deque([earlier, ahead], windowMs, n) == [ahead] && !Refines([earlier, ahead], windowMs, n, cutoff)
  {
    hide Deque;
    DropsEarlier(earlier, ahead, windowMs, n);
    assert earlier == [earlier, ahead][0];
    assert earlier in Since([earlier, ahead], cutoff) && earlier !in Since([ahead], cutoff);
  }

  lemma NegativeWindowHides(t: Txn, windowMs: int, n: nat, cutoff: int)
    requires n >= 1 && windowMs < 0 && t.ts >= cutoff
    ensures Deque([t], windowMs, n) == [] && !Refines([t], windowMs, n, cutoff)
  {
    hide Deque, DropStale;
    DequeStep([], t, windowMs, n);
    assert [] + [t] == [t] && [t][1..] == [];
    DropStaleStep([t], t.ts - windowMs);
    DropStaleStep([], t.ts - windowMs);
    assert t in Since([t], cutoff);
  }

  class AgentStateStore {
    const maxWindowMs: int
    const maxPerAgent: nat
    var byAgent: map<string, seq<Txn>>
    ghost var history: map<string, seq<Txn>>

    ghost predicate Valid()
      reads this
    {
      && byAgent.Keys == history.Keys
      && forall a :: a in byAgent ==> byAgent[a] == Deque(history[a], maxWindowMs, maxPerAgent)
    }

    ghost function HistoryOf(agent: string): seq<Txn>
      reads this
    {
      if agent in history then history[agent] else []
    }

    constructor (maxWindowS: int := 24 * 3600, maxPerAgent: nat := 5000)
      ensures Valid() && history == map[]
      ensures maxWindowMs == maxWindowS * 1000 && this.maxPerAgent == maxPerAgent
    {
      maxWindowMs, this.maxPerAgent := maxWindowS * 1000, maxPerAgent;
      byAgent, history := map[], map[];
    }

    method Append(agent: string, txn: Txn)
      requires Valid()
      modifies this
      ensures Valid()
      ensures history == old(history)[agent := old(HistoryOf(agent)) + [txn]]
      ensures byAgent == old(byAgent)[agent := Deque(history[agent], maxWindowMs, maxPerAgent)]
    {
      hide Deque, DropStale, LastN;
      ghost var h := HistoryOf(agent);
      DequeStep(h, txn, maxWindowMs, maxPerAgent);
      var dq := if agent in byAgent then byAgent[agent] else [];
      dq := Trim(dq + [txn], txn.ts - maxWindowMs);
      byAgent := byAgent[agent := dq];
      history := history[agent := h + [txn]];
    }

    /** The two loops that drop entries from the front. */
    method Trim(deque: seq<Txn>, cutoff: int) returns (dq: seq<Txn>)
      ensures dq == LastN(DropStale(deque, cutoff), maxPerAgent)
    {
      dq := deque;
      while dq != [] && dq[0].ts < cutoff
        invariant DropStale(dq, cutoff) == DropStale(deque, cutoff)
        decreases |dq|
      {
        dq := dq[1..];
      }
      while |dq| > maxPerAgent
        invariant LastN(dq, maxPerAgent) == LastN(DropStale(deque, cutoff), maxPerAgent)
        decreases |dq|
      {
        dq := dq[1..];
      }
    }

    static method Filtered(dq: seq<Txn>, cutoff: int) returns (r: seq<Txn>)
      ensures r == Since(dq, cutoff)
    {
      r := [];
      for i := 0 to |dq|
        invariant r == Since(dq[..i], cutoff)
      {
        assert dq[..i + 1][..i] == dq[..i];
        if dq[i].ts >= cutoff { r := r + [dq[i]]; }
      }
      assert dq[..|dq|] == dq;
    }

    /** For every arrival order: as long as the view's cutoff is not before a trimming cutoff, the view is the
        filtered tail of the full history.  ViewRefinesIff says that this bound is exact. */
    method View(agent: string, windowS: int, nowMs: int) returns (r: seq<Txn>)
      requires Valid()
      ensures agent in byAgent ==> r == Since(byAgent[agent], nowMs - windowS * 1000)
      ensures agent !in byAgent ==> r == []
      ensures SeenUpTo(HistoryOf(agent), nowMs - windowS * 1000 + maxWindowMs) ==>
        r == Since(LastN(HistoryOf(agent), maxPerAgent), nowMs - windowS * 1000)
    {
      hide Trimmed, Deque;
      if agent !in byAgent || byAgent[agent] == [] {
        r := [];
      } else {
        r := Filtered(byAgent[agent], nowMs - windowS * 1000);
      }
      if agent in byAgent && SeenUpTo(HistoryOf(agent), nowMs - windowS * 1000 + maxWindowMs) {
        DequeIsTrimmed(history[agent], maxWindowMs, maxPerAgent);
        ViewRefinesHistory(byAgent[agent], history[agent], maxWindowMs, maxPerAgent, nowMs - windowS * 1000);
      }
    }
  }
}
