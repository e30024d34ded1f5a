/** First-seen times of domains in a bounded table that forgets the oldest insertion, and the newly-registered check.

  Domains arrive lower-cased and without trailing dots. */
module FirstSeen {
  import opened Basics

  datatype Sighting = Sighting(domain: string, at: int)

  /** Position of d among the sightings, -1 if it is not there. */
  function Find(t: seq<Sighting>, d: string): (i: int)
    ensures -1 <= i < |t|
    ensures i >= 0 ==> t[i].domain == d && forall k :: 0 <= k < i ==> t[k].domain != d
    ensures i == -1 ==> forall k :: 0 <= k < |t| ==> t[k].domain != d
  {
    if t == [] then -1
    else
      var i := Find(t[..|t| - 1], d);
      if i >= 0 then i else if t[|t| - 1].domain == d then |t| - 1 else -1
  }

  function Enter(e: seq<Sighting>, s: Sighting, n: nat): seq<Sighting> {
    if Find(LastN(e, n), s.domain) >= 0 then e else e + [s]
  }

  /** Every sighting that entered the table, in order: those of a domain not among the last n that entered. */
  function Entered(log: seq<Sighting>, n: nat): seq<Sighting> {
    if log == [] then [] else Enter(Entered(log[..|log| - 1], n), log[|log| - 1], n)
  }

  /** A domain enters again only after n others have entered. */
  ghost predicate Spaced(e: seq<Sighting>, n: nat) {
    forall i, j :: 0 <= i < j < |e| && e[i].domain == e[j].domain ==> j - i > n
  }

  lemma {:induction false} EnteredIsSpaced(log: seq<Sighting>, n: nat)
    ensures Spaced(Entered(log, n), n)
  {
    hide Enter, Spaced;
    if log == [] {
      NothingSpaced(n);
    } else {
      EnteredIsSpaced(log[..|log| - 1], n);
      SpacedStep(Entered(log[..|log| - 1], n), log[|log| - 1], n);
    }
  }

  lemma NothingSpaced(n: nat)
    ensures Spaced([], n)
  {
  }

  lemma SpacedStep(e: seq<Sighting>, s: Sighting, n: nat)
    requires Spaced(e, n)
    ensures Spaced(Enter(e, s, n), n)
  {
    hide Find;
    var t := LastN(e, n);
    if Find(t, s.domain) == -1 {
      forall i | 0 <= i < |e| && |e| - i <= n ensures e[i].domain != s.domain {
        assert t[i - (|e| - |t|)] == e[i];
      }
    }
  }

  /** The first sightings: of every domain the earliest, in order. */
  function Firsts(log: seq<Sighting>): seq<Sighting> {
    if log == [] then []
    else
      var before, s := Firsts(log[..|log| - 1]), log[|log| - 1];
      if Find(before, s.domain) >= 0 then before else before + [s]
  }

  /** d is listed with the time of its earliest sighting, and only if it was seen. */
  lemma {:induction false} FirstsAreEarliest(log: seq<Sighting>, d: string)
    ensures var i := Find(Firsts(log), d); var j := Find(log, d);
      (i >= 0 <==> j >= 0) && (i >= 0 ==> Firsts(log)[i] == log[j])
  {
    if log != [] {
      var n := |log| - 1;
      FirstsAreEarliest(log[..n], d);
      FirstsAreEarliest(log[..n], log[n].domain);
      var before := Firsts(log[..n]);
      if Find(before, log[n].domain) < 0 { FindInExtended(before, log[n], d); }
      assert log == log[..n] + [log[n]];
      FindInExtended(log[..n], log[n], d);
    }
  }

  lemma FindInExtended(t: seq<Sighting>, s: Sighting, d: string)
    ensures Find(t + [s], d) == if Find(t, d) >= 0 then Find(t, d) else if s.domain == d then |t| else -1
  {
    assert (t + [s])[..|t|] == t;
  }

  lemma {:induction false} FirstsGrow(log: seq<Sighting>, m: nat)
    requires m <= |log|
    ensures |Firsts(log[..m])| <= |Firsts(log)|
  {
    if m < |log| {
      FirstsGrow(log[..|log| - 1], m);
      assert log[..|log| - 1][..m] == log[..m];
    } else {
      assert log[..m] == log;
    }
  }

  /** While at most n distinct domains have been seen nothing is forgotten: the table is the list of first sightings. */
  lemma {:induction false} NothingForgottenWhileItFits(log: seq<Sighting>, n: nat)
    requires |Firsts(log)| <= n
    ensures Entered(log, n) == Firsts(log)
  {
    if log != [] {
      FirstsGrow(log, |log| - 1);
      NothingForgottenWhileItFits(log[..|log| - 1], n);
      assert LastN(Firsts(log[..|log| - 1]), n) == Firsts(log[..|log| - 1]);
    }
  }

  /** The table is the list of first sightings exactly while the distinct domains fit. */
  lemma NothingForgottenIff(log: seq<Sighting>, n: nat)
    ensures LastN(Entered(log, n), n) == Firsts(log) <==> |Firsts(log)| <= n
  {
    if |Firsts(log)| <= n { NothingForgottenWhileItFits(log, n); }
  }

  /** With one domain more than fits, the first domain is reported as new on its next sighting. */
  lemma ForgottenLooksNew(log: seq<Sighting>, s: Sighting, n: nat)
    requires n > 0 && |Firsts(log)| == n && Find(log, s.domain) == -1
    ensures Find(log + [s], log[0].domain) == 0
    ensures Find(LastN(Entered(log + [s], n), n), log[0].domain) == -1
  {
    hide Find, Firsts;
    NoFirsts();
    assert (log + [s])[..|log|] == log;
    NothingForgottenWhileItFits(log, n);
    FirstsAreEarliest(log, s.domain);
    FirstHead(log);
    var e := Firsts(log);
    assert LastN(e, n) == e && Entered(log + [s], n) == e + [s];
    EnteredIsSpaced(log + [s], n);
    assert LastN(e + [s], n) == (e + [s])[1..];
    FindHead(log + [s]);
    FindHead(log);
    SpacedTail(e + [s], n);
  }

  lemma NoFirsts()
    ensures Firsts([]) == []
  {
  }

  lemma SpacedTail(e: seq<Sighting>, n: nat)
    requires Spaced(e, n) && |e| == n + 1
    ensures Find(e[1..], e[0].domain) == -1
  {
    var i := Find(e[1..], e[0].domain);
    if i >= 0 { assert e[i + 1] == e[1..][i]; }
  }

  lemma {:induction false} FirstHead(log: seq<Sighting>)
    requires log != []
    ensures Firsts(log) != [] && Firsts(log)[0] == log[0]
  {
    if |log| > 1 { FirstHead(log[..|log| - 1]); }
  }

  lemma {:induction false} FindHead(log: seq<Sighting>)
    requires log != []
    ensures Find(log, log[0].domain) == 0
  {
    if |log| > 1 { FindHead(log[..|log| - 1]); }
  }

  ghost predicate InTimeOrder(t: seq<Sighting>) { forall i, j :: 0 <= i < j < |t| ==> t[i].at <= t[j].at }

  ghost predicate UpTo(e: seq<Sighting>, at: int) { forall s :: s in e ==> s.at <= at }

  /** On a clock that does not go back, what leaves the table first was first seen earliest. */
  lemma {:induction false} EnteredInTimeOrder(log: seq<Sighting>, n: nat)
    requires InTimeOrder(log)
    ensures InTimeOrder(Entered(log, n))
    ensures log != [] ==> UpTo(Entered(log, n), log[|log| - 1].at)
  {
    hide Find;
    if log != [] {
      EnteredInTimeOrder(log[..|log| - 1], n);
    }
  }

  class FirstSeenTracker {
    const max: int
    /** The dictionary, and its keys in insertion order. */
    var firstSeen: map<string, int>
    var order: seq<string>
    /** Every observation that did not fail. */
    ghost var log: seq<Sighting>

    constructor (max: int)
      ensures Valid() && log == [] && this.max == max
    {
      this.max := max;
      firstSeen, order, log := map[], [], [];
    }

    ghost function Capacity(): nat { if max < 0 then 0 else max }

    /** The last entries, as many as fit. */
    ghost function Table(): seq<Sighting>
      reads this
    {
      LastN(Entered(log, Capacity()), Capacity())
    }

    ghost predicate Valid()
      reads this
    {
      && Lists(firstSeen, order, Table())
      && (max <= 0 ==> log == [])
    }

    /** The first-seen time of d; None when the eviction of a table that can hold nothing fails. */
    method Observe(d: string, now: int) returns (r: Option<int>)
      requires Valid()
      modifies this
      ensures Valid()
      ensures r.None? <==> max <= 0
      ensures log == if r.Some? then old(log) + [Sighting(d, now)] else old(log)
      ensures r.Some? ==>
        var i := Find(Table(), d); i >= 0 && Table()[i].at == r.value
      ensures r.Some? ==>
        var i := Find(old(Table()), d); r.value == if i >= 0 then old(Table())[i].at else now
    {
      hide Entered, LastN, Find, Lists;
      ghost var t, n := Table(), Capacity();
      ListsFind(firstSeen, order, t, d);
      TableStep(log, n, Sighting(d, now));
      if d in firstSeen {
        log := log + [Sighting(d, now)];
        return Some(firstSeen[d]);
      }
      if |order| >= max {
        if order == [] { return None; }
        ListsDrop(firstSeen, order, t);
        firstSeen := firstSeen - {order[0]};
        order := order[1..];
        t := t[1..];
      }
      ListsAdd(firstSeen, order, t, d, now);
      firstSeen := firstSeen[d := now];
      order := order + [d];
      log := log + [Sighting(d, now)];
      assert Table() == t + [Sighting(d, now)];
      r := Some(now);
    }
  }

  /** The dictionary and the key order hold exactly the entries of t, each domain once. */
  ghost predicate Lists(m: map<string, int>, order: seq<string>, t: seq<Sighting>) {
    && |order| == |t|
    && (forall i :: 0 <= i < |t| ==> order[i] == t[i].domain && t[i].domain in m && m[t[i].domain] == t[i].at)
    && (forall i, j :: 0 <= i < j < |t| ==> t[i].domain != t[j].domain)
    && (forall d :: d in m ==> Find(t, d) >= 0)
  }

  lemma ListsFind(m: map<string, int>, order: seq<string>, t: seq<Sighting>, d: string)
    requires Lists(m, order, t)
    ensures |order| == |t| && (d in m <==> Find(t, d) >= 0)
    ensures d in m ==> m[d] == t[Find(t, d)].at
  {
  }

  lemma ListsDrop(m: map<string, int>, order: seq<string>, t: seq<Sighting>)
    requires Lists(m, order, t) && t != []
    ensures Lists(m - {order[0]}, order[1..], t[1..])
  {
    forall d | d in m - {order[0]} ensures Find(t[1..], d) >= 0 {
      var i := Find(t, d);
      assert i > 0 && t[1..][i - 1] == t[i];
    }
  }

  lemma ListsAdd(m: map<string, int>, order: seq<string>, t: seq<Sighting>, d: string, now: int)
    requires Lists(m, order, t) && d !in m
    ensures Lists(m[d := now], order + [d], t + [Sighting(d, now)])
    ensures var i := Find(t + [Sighting(d, now)], d); i >= 0 && (t + [Sighting(d, now)])[i].at == now
  {
    forall k ensures Find(t + [Sighting(d, now)], k) == if Find(t, k) >= 0 then Find(t, k) else if d == k then |t| else -1 {
      FindInExtended(t, Sighting(d, now), k);
    }
    ListsFind(m, order, t, d);
  }

  /** What one more observation does to the table. */
  lemma TableStep(log: seq<Sighting>, n: nat, s: Sighting)
    ensures var t := LastN(Entered(log, n), n);
      LastN(Entered(log + [s], n), n) ==
        if Find(t, s.domain) >= 0 then t
        else if |t| < n then t + [s]
        else if n > 0 then t[1..] + [s]
        else []
    ensures LastN(Entered([], n), n) == []
  {
    hide Find;
    assert (log + [s])[..|log|] == log;
    var e := Entered(log, n);
    if Find(LastN(e, n), s.domain) < 0 { TailStep(e, s, n); }
  }

  lemma TailStep(e: seq<Sighting>, s: Sighting, n: nat)
    ensures var t := LastN(e, n);
      LastN(e + [s], n) == if |t| < n then t + [s] else if n > 0 then t[1..] + [s] else []
  {
  }

  // ---------- Newly registered ----------

  const DayMs := 24 * 60 * 60 * 1000

  /** Whole seconds since the recorded time, never negative. */
  function AgeSeconds(seen: int, now: int): int {
    if now - seen < 0 then 0 else (now - seen) / 1000
  }

  /** The age in whole seconds, rounded down, and 0 if the recorded time is ahead. */
  lemma AgeMeans(seen: int, now: int, n: nat)
    ensures AgeSeconds(seen, now) == n <==>
      if now < seen then n == 0 else seen + 1000 * n <= now < seen + 1000 * (n + 1)
  {
  }

  method IsNewlyRegistered(tracker: FirstSeenTracker, d: string, windowDays: int, now: int)
    returns (isNew: bool, age: int)
    requires tracker.Valid() && tracker.max > 0
    modifies tracker
    ensures tracker.Valid() && tracker.log == old(tracker.log) + [Sighting(d, now)]
    ensures var i := Find(old(tracker.Table()), d);
      age == (if i >= 0 then AgeSeconds(old(tracker.Table())[i].at, now) else 0)
      && (isNew <==> age <= windowDays * 86400)
  {
    var seen := tracker.Observe(d, now);
    age := AgeSeconds(seen.value, now);
    isNew := age <= windowDays * 24 * 60 * 60;
  }

  /** While the table fits, a domain counts as new exactly until its first sighting is the window plus one second old. */
  lemma NewIffFirstSightingIsRecent(log: seq<Sighting>, n: nat, d: string, windowDays: nat, now: int)
    requires |Firsts(log)| <= n && Find(log, d) >= 0 && InTimeOrder(log + [Sighting(d, now)])
    ensures var t := LastN(Entered(log, n), n); var i := Find(t, d);
      i >= 0 && (AgeSeconds(t[i].at, now) <= windowDays * 86400 <==>
                 now - log[Find(log, d)].at < windowDays * DayMs + 1000)
  {
    hide Find, Firsts, Entered;
    NothingForgottenWhileItFits(log, n);
    FirstsAreEarliest(log, d);
    var r, j := log + [Sighting(d, now)], Find(log, d);
    assert r[j] == log[j] && r[|log|].at == now;
    assert log[j].at <= now;
  }
}
