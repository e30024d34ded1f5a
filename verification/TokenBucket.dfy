/** Token buckets: the in-memory limiter, and the Redis script with key expiry.

  Both are specified by the whole history of calls.  A call is admitted exactly when every window of past calls
  ending in it stays within capacity + refill * (time the clock moved forward in the window). */
module TokenBucket {
  import opened Basics

  datatype Config = Config(capacity: real, refill: real)

  /** One handled call: clock reading in seconds, cost, and the decision taken. */
  datatype Call = Call(now: real, cost: real, allowed: bool)

  function Init<T>(h: seq<T>): seq<T>
    requires h != []
  {
    h[..|h| - 1]
  }

  function Last<T>(h: seq<T>): T
    requires h != []
  {
    h[|h| - 1]
  }

  // ---------- The declarative account: windows ----------

  /** Time the clock moved forward from call k to a call at now; backward steps count nothing. */
  function Forward(h: seq<Call>, k: nat, now: real): (t: real)
    requires k <= |h|
    ensures t >= 0.0
  {
    if k == |h| then 0.0 else Forward(Init(h), k, Last(h).now) + RealMax(0.0, now - Last(h).now)
  }

  function Charge(e: Call): real { if e.allowed then e.cost else 0.0 }

  /** Cost admitted in calls k, k+1, ... */
  function Spent(h: seq<Call>, k: nat): real
    requires k <= |h|
  {
    if k == |h| then 0.0 else Spent(Init(h), k) + Charge(Last(h))
  }

  /** What a window of length t may admit. */
  function Allowance(c: Config, t: real): real { c.capacity + c.refill * t }

  function Room(c: Config, h: seq<Call>, k: nat, now: real): real
    requires k <= |h|
  {
    Allowance(c, Forward(h, k, now)) - Spent(h, k)
  }

  /** The admission rule without any bucket. */
  ghost predicate FitsEveryWindow(c: Config, h: seq<Call>, now: real, cost: real) {
    forall k :: 0 <= k <= |h| ==> Spent(h, k) + cost <= Allowance(c, Forward(h, k, now))
  }

  ghost predicate Legal(c: Config, h: seq<Call>) {
    h != [] ==>
      Legal(c, Init(h)) && (Last(h).allowed <==> FitsEveryWindow(c, Init(h), Last(h).now, Last(h).cost))
  }

  /** The rule leaves no freedom: two limiters that follow it and see the same calls take the same decisions. */
  lemma {:induction false} LegalIsDeterministic(c: Config, g: seq<Call>, h: seq<Call>)
    requires Legal(c, g) && Legal(c, h) && |g| == |h|
    requires forall i :: 0 <= i < |g| ==> g[i].now == h[i].now && g[i].cost == h[i].cost
    ensures g == h
  {
    hide FitsEveryWindow;
    if g != [] {
      LegalIsDeterministic(c, Init(g), Init(h));
      assert g == Init(g) + [Last(g)] && h == Init(h) + [Last(h)];
    }
  }

  // ---------- The operational account: a balance ----------

  /** Balance at a call made at now, after refilling. */
  function Available(c: Config, h: seq<Call>, now: real): real
    decreases |h|, 1
  {
    if h == [] then c.capacity
    else RealMin(c.capacity, Left(c, h) + RealMax(0.0, now - Last(h).now) * c.refill)
  }

  /** Balance left by the last call. */
  function Left(c: Config, h: seq<Call>): real
    requires h != []
    decreases |h|, 0
  {
    Available(c, Init(h), Last(h).now) - Charge(Last(h))
  }

  lemma RoomStep(c: Config, h: seq<Call>, k: nat, now: real)
    requires k <= |h|
    ensures k == |h| ==> Room(c, h, k, now) == c.capacity
    ensures k < |h| ==>
      Room(c, h, k, now) == Room(c, Init(h), k, Last(h).now) - Charge(Last(h)) + RealMax(0.0, now - Last(h).now) * c.refill
  {
    if k < |h| {
      Distribute(c.refill, Forward(Init(h), k, Last(h).now), RealMax(0.0, now - Last(h).now));
    }
  }

  lemma Distribute(r: real, x: real, y: real)
    ensures r * (x + y) == r * x + y * r
    ensures r * x == x * r
  {
  }

  /** The balance is exactly the tightest window: no room is smaller, and some window has precisely this room. */
  lemma {:induction false} BalanceIsTightestWindow(c: Config, h: seq<Call>, now: real) returns (tightest: nat)
    ensures forall k :: 0 <= k <= |h| ==> Available(c, h, now) <= Room(c, h, k, now)
    ensures tightest <= |h| && Available(c, h, now) == Room(c, h, tightest, now)
  {
    hide Room;
    tightest := |h|;
    RoomStep(c, h, |h|, now);
    if h != [] {
      var j := BalanceIsTightestWindow(c, Init(h), Last(h).now);
      forall k | 0 <= k <= |h| ensures Available(c, h, now) <= Room(c, h, k, now) {
        RoomStep(c, h, k, now);
      }
      if Available(c, h, now) != c.capacity {
        RoomStep(c, h, j, now);
        tightest := j;
      }
    }
  }

  /** Comparing the cost with the balance decides the window rule. */
  lemma AdmissionRule(c: Config, h: seq<Call>, now: real, cost: real)
    ensures cost <= Available(c, h, now) <==> FitsEveryWindow(c, h, now, cost)
  {
    var tightest := BalanceIsTightestWindow(c, h, now);
    hide Room;
    forall k | 0 <= k <= |h|
      ensures Spent(h, k) + cost <= Allowance(c, Forward(h, k, now)) <==> cost <= Room(c, h, k, now)
    {
      RoomUnfolds(c, h, k, now);
    }
  }

  lemma RoomUnfolds(c: Config, h: seq<Call>, k: nat, now: real)
    requires k <= |h|
    ensures Room(c, h, k, now) == Allowance(c, Forward(h, k, now)) - Spent(h, k)
  {
  }

  /** No window of a legal history admits more than capacity + refill * its forward time. */
  lemma {:induction false} NoWindowOverspends(c: Config, h: seq<Call>, k: nat)
    requires c.capacity >= 0.0 && c.refill >= 0.0 && Legal(c, h) && k < |h|
    ensures Spent(h, k) <= Allowance(c, Forward(Init(h), k, Last(h).now))
  {
    hide Allowance;
    var h', now := Init(h), Last(h).now;
    if Last(h).allowed {
      assert Spent(h', k) + Last(h).cost <= Allowance(c, Forward(h', k, now));
    } else if k < |h'| {
      NoWindowOverspends(c, h', k);
      assert Spent(h, k) == Spent(h', k);
      AllowanceGrows(c, Forward(Init(h'), k, Last(h').now), Forward(h', k, now));
    } else {
      AllowanceGrows(c, 0.0, 0.0);
      assert Spent(h, k) == 0.0;
    }
  }

  lemma MulGrows(r: real, x: real, y: real)
    requires 0.0 <= r && x <= y
    ensures r * x <= r * y
  {
    assert 0.0 <= r * (y - x);
  }

  lemma AllowanceGrows(c: Config, x: real, y: real)
    requires 0.0 <= c.refill && x <= y
    ensures Allowance(c, x) <= Allowance(c, y)
    ensures Allowance(c, 0.0) == c.capacity
  {
    MulGrows(c.refill, x, y);
  }

  ghost predicate Nondecreasing(h: seq<Call>, now: real) {
    h != [] ==> Last(h).now <= now && Nondecreasing(Init(h), Last(h).now)
  }

  lemma NondecreasingLater(h: seq<Call>, t: real, now: real)
    requires Nondecreasing(h, t) && t <= now
    ensures Nondecreasing(h, now)
  {
  }

  lemma NondecreasingExtends(h: seq<Call>, e: Call)
    requires Nondecreasing(h, e.now)
    ensures Nondecreasing(h + [e], e.now)
  {
    assert Init(h + [e]) == h;
  }

  /** With a clock that never steps back the forward time of a window is simply its length. */
  lemma {:induction false} ForwardIsElapsed(h: seq<Call>, k: nat, now: real)
    requires k < |h| && Nondecreasing(h, now)
    ensures Forward(h, k, now) == now - h[k].now
  {
    if k < |h| - 1 { ForwardIsElapsed(Init(h), k, Last(h).now); }
  }

  /** A clock step back and forth refills the same stretch of time twice: two units pass in no net time at all. */
  lemma BackwardStepRefillsTwice()
    ensures var c := Config(1.0, 1.0);
      var h := [Call(10.0, 1.0, true), Call(0.0, 1.0, false), Call(10.0, 1.0, true)];
      Legal(c, h) && Spent(h, 0) == 2.0 > Allowance(c, h[2].now - h[0].now)
  {
    var c := Config(1.0, 1.0);
    var h1 := [Call(10.0, 1.0, true)];
    var h2 := h1 + [Call(0.0, 1.0, false)];
    var h3 := h2 + [Call(10.0, 1.0, true)];
    assert Init(h1) == [] && Init(h2) == h1 && Init(h3) == h2;
    AdmissionRule(c, [], 10.0, 1.0);
    AdmissionRule(c, h1, 0.0, 1.0);
    AdmissionRule(c, h2, 10.0, 1.0);
    assert h3 == [Call(10.0, 1.0, true), Call(0.0, 1.0, false), Call(10.0, 1.0, true)];
  }

  // ---------- When windows may be measured by elapsed time ----------

  ghost predicate NeverBack(readings: seq<real>) {
    forall i :: 0 < i < |readings| ==> readings[i - 1] <= readings[i]
  }

  ghost predicate At(h: seq<Call>, readings: seq<real>) {
    |h| == |readings| && forall i :: 0 <= i < |h| ==> h[i].now == readings[i]
  }

  /** The calls from k to j fit into capacity + refill * (time elapsed between them). */
  ghost predicate FitsElapsed(c: Config, h: seq<Call>, k: nat, j: nat)
    requires k <= j < |h|
  {
    Spent(h[..j + 1], k) <= Allowance(c, h[j].now - h[k].now)
  }

  ghost predicate KeepsElapsedBound(c: Config, h: seq<Call>) {
    forall k: nat, j: nat :: k <= j < |h| ==> FitsElapsed(c, h, k, j)
  }

  /** Every legal run on the given clock readings keeps the bound by elapsed time, in all its windows, exactly when
      the readings never step back or nothing is refilled. */
  lemma ElapsedBoundIff(c: Config, readings: seq<real>)
    requires c.capacity >= 0.0 && c.refill >= 0.0
    ensures (forall h :: Legal(c, h) && At(h, readings) ==> KeepsElapsedBound(c, h)) <==>
      c.refill == 0.0 || NeverBack(readings)
  {
    hide Legal, FitsElapsed;
    if c.refill == 0.0 || NeverBack(readings) {
      forall h, k: nat, j: nat | Legal(c, h) && At(h, readings) && k <= j < |h| ensures FitsElapsed(c, h, k, j) {
        BoundKept(c, h, k, j, readings);
      }
    } else {
      var i :| 0 < i < |readings| && readings[i - 1] > readings[i];
      BoundBroken(c, readings, i);
    }
  }

  lemma {:induction false} LegalPrefix(c: Config, h: seq<Call>, n: nat)
    requires Legal(c, h) && n <= |h|
    ensures Legal(c, h[..n])
  {
    hide FitsEveryWindow;
    if n < |h| {
      LegalPrefix(c, Init(h), n);
      assert Init(h)[..n] == h[..n];
    } else {
      assert h[..n] == h;
    }
  }

  lemma {:induction false} NondecreasingPrefix(h: seq<Call>, n: nat, readings: seq<real>)
    requires n < |h| && At(h, readings) && NeverBack(readings)
    ensures Nondecreasing(h[..n], h[n].now)
  {
    if n > 0 {
      NondecreasingPrefix(h, n - 1, readings);
      assert Init(h[..n]) == h[..n - 1];
      assert readings[n - 1] <= readings[n];
    }
  }

  lemma BoundKept(c: Config, h: seq<Call>, k: nat, j: nat, readings: seq<real>)
    requires c.capacity >= 0.0 && c.refill >= 0.0 && (c.refill == 0.0 || NeverBack(readings))
    requires Legal(c, h) && At(h, readings) && k <= j < |h|
    ensures FitsElapsed(c, h, k, j)
  {
    hide Legal;
    var g := h[..j + 1];
    assert Init(g) == h[..j] && Last(g) == h[j];
    LegalPrefix(c, h, j + 1);
    NoWindowOverspends(c, g, k);
    if c.refill > 0.0 && k < j {
      NondecreasingPrefix(h, j, readings);
      ForwardIsElapsed(h[..j], k, h[j].now);
    }
  }

  /** Ask for nothing, except for the whole capacity in one call. */
  function Play(c: Config, readings: seq<real>, spendAt: nat): (h: seq<Call>)
    ensures |h| == |readings|
  {
    if readings == [] then []
    else
      var g := Play(c, Init(readings), spendAt);
      var cost := if |g| == spendAt then c.capacity else 0.0;
      g + [Call(Last(readings), cost, cost <= Available(c, g, Last(readings)))]
  }

  lemma {:induction false} PlayIsLegal(c: Config, readings: seq<real>, spendAt: nat)
    ensures Legal(c, Play(c, readings, spendAt)) && At(Play(c, readings, spendAt), readings)
  {
    hide FitsEveryWindow, Available;
    if readings != [] {
      var g, h := Play(c, Init(readings), spendAt), Play(c, readings, spendAt);
      PlayIsLegal(c, Init(readings), spendAt);
      assert Init(h) == g;
      AdmissionRule(c, g, Last(h).now, Last(h).cost);
    }
  }

  lemma {:induction false} PlayStaysFull(c: Config, readings: seq<real>, spendAt: nat, now: real)
    requires c.capacity >= 0.0 && c.refill >= 0.0 && |readings| <= spendAt
    ensures Available(c, Play(c, readings, spendAt), now) == c.capacity
  {
    if readings != [] {
      var g, h := Play(c, Init(readings), spendAt), Play(c, readings, spendAt);
      assert Init(h) == g;
      PlayStaysFull(c, Init(readings), spendAt, Last(readings));
      MulGrows(c.refill, 0.0, RealMax(0.0, now - Last(h).now));
    }
  }

  lemma {:induction false} PlayAt(c: Config, readings: seq<real>, spendAt: nat, n: nat)
    requires c.capacity >= 0.0 && c.refill >= 0.0 && n < |readings|
    ensures var e := Play(c, readings, spendAt)[n];
      && e.cost == (if n == spendAt then c.capacity else 0.0)
      && (n == spendAt ==> e.allowed)
  {
    hide Available;
    if n < |readings| - 1 {
      PlayAt(c, Init(readings), spendAt, n);
    } else if n == spendAt {
      PlayStaysFull(c, Init(readings), spendAt, Last(readings));
    }
  }

  /** Spend everything just before the step back. */
  lemma BoundBroken(c: Config, readings: seq<real>, i: nat)
    requires c.capacity >= 0.0 && c.refill > 0.0 && 0 < i < |readings| && readings[i - 1] > readings[i]
    ensures var h := Play(c, readings, i - 1);
      Legal(c, h) && At(h, readings) && !FitsElapsed(c, h, i - 1, i) && !KeepsElapsedBound(c, h)
  {
    hide Legal, Play, Spent, Allowance;
    var h := Play(c, readings, i - 1);
    PlayIsLegal(c, readings, i - 1);
    PlayAt(c, readings, i - 1, i - 1);
    PlayAt(c, readings, i - 1, i);
    SpentByTwo(h[..i + 1], i - 1);
    NegativeAllowance(c, readings[i] - readings[i - 1]);
  }

  lemma SpentByTwo(h: seq<Call>, k: nat)
    requires |h| == k + 2
    ensures Spent(h, k) == Charge(h[k]) + Charge(h[k + 1])
  {
    assert Spent(Init(h), k) == Spent(Init(Init(h)), k) + Charge(h[k]);
  }

  lemma NegativeAllowance(c: Config, t: real)
    requires c.refill > 0.0 && t < 0.0
    ensures Allowance(c, t) < c.capacity
  {
    assert c.refill * -t > 0.0;
  }

  /** Deciding by the balance t extends a legal history legally. */
  lemma DecideByBalance(c: Config, h: seq<Call>, now: real, cost: real, t: real)
    requires Legal(c, h) && t == Available(c, h, now)
    ensures var h' := h + [Call(now, cost, t >= cost)];
      Legal(c, h') && Left(c, h') == if t >= cost then t - cost else t
    ensures t >= cost <==> FitsEveryWindow(c, h, now, cost)
  {
    AdmissionRule(c, h, now, cost);
    hide FitsEveryWindow, Available;
    var h' := h + [Call(now, cost, t >= cost)];
    assert Init(h') == h && Last(h') == Call(now, cost, t >= cost);
  }

  // ---------- The in-memory limiter ----------

  class InMemoryRateLimiter {
    const config: Config
    /** tokens left and time of the last call, per key */
    var buckets: map<string, (real, real)>
    ghost var history: map<string, seq<Call>>

    ghost function HistoryOf(key: string): seq<Call>
      reads this
    {
      if key in history then history[key] else []
    }

    ghost predicate Valid()
      reads this
    {
      && buckets.Keys == history.Keys
      && forall key :: key in buckets ==>
           history[key] != []
           && buckets[key] == (Left(config, history[key]), Last(history[key]).now)
           && Legal(config, history[key])
    }

    constructor (config: Config)
      ensures Valid() && history == map[] && this.config == config
    {
      this.config := config;
      buckets, history := map[], map[];
    }

    /** The decision is the window rule over everything this key has been through; other keys are untouched. */
    method Allow(key: string, cost: real, now: real) returns (allowed: bool)
      requires Valid()
      modifies this
      ensures Valid()
      ensures allowed <==> FitsEveryWindow(config, old(HistoryOf(key)), now, cost)
      ensures history == old(history)[key := old(HistoryOf(key)) + [Call(now, cost, allowed)]]
    {
      ghost var h := HistoryOf(key);
      var (tokens, ts) := if key in buckets then buckets[key] else (config.capacity, now);
      var elapsed := RealMax(0.0, now - ts);
      tokens := RealMin(config.capacity, tokens + elapsed * config.refill);
      DecideByBalance(config, h, now, cost, tokens);
      history := history[key := h + [Call(now, cost, !(tokens < cost))]];
      if tokens < cost {
        buckets := buckets[key := (tokens, now)];
        return false;
      }
      buckets := buckets[key := (tokens - cost, now)];
      return true;
    }
  }

  // ---------- The Redis script ----------

  function Ceil(x: real): int { -((-x).Floor) }

  /** Seconds a key is kept after a call. */
  function Ttl(c: Config, floor: real): int
    requires floor > 0.0
  {
    Ceil(c.capacity / RealMax(c.refill, floor) * 2.0)
  }

  /** An idle key refills completely before it expires. */
  predicate RefillsBeforeExpiry(c: Config, floor: real)
    requires floor > 0.0
  {
    c.refill * Ttl(c, floor) as real >= c.capacity
  }

  /** A run the expiry may interrupt: legal decisions, a nondecreasing clock, and a key idle for its whole TTL. */
  ghost predicate IdleForTtl(c: Config, floor: real, h: seq<Call>, now: real)
    requires floor > 0.0
  {
    h != [] && Legal(c, h) && Nondecreasing(h, now) && now - Last(h).now >= Ttl(c, floor) as real
  }

  /** Deciding with a fresh bucket and with the kept one gives the same answer for every run and every cost. */
  ghost predicate ExpiryIsUnobservable(c: Config, floor: real)
    requires floor > 0.0
  {
    forall h, now, cost :: IdleForTtl(c, floor, h, now) ==> SameDecision(c, h, now, cost)
  }

  ghost predicate SameDecision(c: Config, h: seq<Call>, now: real, cost: real) {
    cost <= Available(c, h, now) <==> cost <= c.capacity
  }

  lemma {:induction false} BalanceNeverNegative(c: Config, h: seq<Call>, now: real)
    requires c.capacity >= 0.0 && c.refill >= 0.0 && Legal(c, h)
    ensures 0.0 <= Available(c, h, now) <= c.capacity
    ensures h != [] ==> 0.0 <= Left(c, h)
  {
    if h != [] {
      BalanceNeverNegative(c, Init(h), Last(h).now);
      AdmissionRule(c, Init(h), Last(h).now, Last(h).cost);
      MulGrows(c.refill, 0.0, RealMax(0.0, now - Last(h).now));
    }
  }

  lemma FullAfterTtl(c: Config, floor: real, h: seq<Call>, now: real)
    requires floor > 0.0 && c.capacity >= 0.0 && c.refill >= 0.0
    requires RefillsBeforeExpiry(c, floor) && IdleForTtl(c, floor, h, now)
    ensures Available(c, h, now) == c.capacity
  {
    BalanceNeverNegative(c, h, now);
    TtlNonnegative(c, floor);
    LongIdleRefills(c, Left(c, h), Ttl(c, floor) as real, now - Last(h).now);
  }

  lemma LongIdleRefills(c: Config, left: real, ttl: real, idle: real)
    requires c.refill >= 0.0 && left >= 0.0 && 0.0 <= ttl <= idle && c.refill * ttl >= c.capacity
    ensures RealMin(c.capacity, left + RealMax(0.0, idle) * c.refill) == c.capacity
  {
    MulGrows(c.refill, ttl, idle);
    Distribute(c.refill, idle, 0.0);
  }

  lemma TtlNonnegative(c: Config, floor: real)
    requires floor > 0.0 && c.capacity >= 0.0
    ensures Ttl(c, floor) >= 0
    ensures Ttl(c, floor) as real * RealMax(c.refill, floor) >= 2.0 * c.capacity
  {
    var m := RealMax(c.refill, floor);
    var x := c.capacity / m;
    assert x * m == c.capacity;
    assert x >= 0.0;
    var ttl := Ttl(c, floor) as real;
    assert ttl >= x * 2.0;
    MulGrows(m, x * 2.0, ttl);
  }

  /** The TTL is the least whole number of seconds in which twice the capacity would be refilled, at the floor rate at
      least. */
  lemma TtlIsLeast(c: Config, floor: real, k: int)
    requires floor > 0.0 && c.capacity >= 0.0
    ensures Ttl(c, floor) as real * RealMax(c.refill, floor) >= 2.0 * c.capacity
    ensures k as real * RealMax(c.refill, floor) >= 2.0 * c.capacity ==> Ttl(c, floor) <= k
  {
    TtlNonnegative(c, floor);
    var m := RealMax(c.refill, floor);
    var x := c.capacity / m;
    assert x * m == c.capacity;
    if k as real * m >= 2.0 * c.capacity && (k as real) < x * 2.0 {
      StrictlyLess(m, k as real, x * 2.0);
    }
  }

  lemma StrictlyLess(m: real, x: real, y: real)
    requires m > 0.0 && x < y
    ensures x * m < y * m
  {
    assert (y - x) * m > 0.0;
  }

  /** Dropping an idle key is unobservable exactly when the key refills before it expires. */
  lemma ExpiryUnobservableIff(c: Config, floor: real)
    requires floor > 0.0 && c.capacity >= 0.0 && c.refill >= 0.0
    ensures ExpiryIsUnobservable(c, floor) <==> RefillsBeforeExpiry(c, floor)
  {
    if RefillsBeforeExpiry(c, floor) {
      forall h, now, cost | IdleForTtl(c, floor, h, now)
        ensures SameDecision(c, h, now, cost)
      {
        FullAfterTtl(c, floor, h, now);
      }
    } else {
      var h, now, cost := ExpiryWitness(c, floor);
      assert !SameDecision(c, h, now, cost);
    }
  }

  /** Spend everything, wait out the TTL, ask for everything again. */
  lemma ExpiryWitness(c: Config, floor: real) returns (h: seq<Call>, now: real, cost: real)
    requires floor > 0.0 && c.capacity >= 0.0 && c.refill >= 0.0 && !RefillsBeforeExpiry(c, floor)
    ensures IdleForTtl(c, floor, h, now) && cost > Available(c, h, now) && cost <= c.capacity
  {
    h := [Call(0.0, c.capacity, true)];
    now, cost := Ttl(c, floor) as real, c.capacity;
    TtlNonnegative(c, floor);
    assert Init(h) == [];
    AdmissionRule(c, [], 0.0, c.capacity);
    assert Left(c, h) == 0.0;
    Distribute(c.refill, now, 0.0);
  }

  /** Every refill rate of at least half the script's floor is safe. */
  lemma HalfFloorSuffices(c: Config, floor: real)
    requires floor > 0.0 && c.capacity >= 0.0 && c.refill >= floor / 2.0
    ensures RefillsBeforeExpiry(c, floor)
  {
    TtlNonnegative(c, floor);
    var ttl := Ttl(c, floor) as real;
    MulGrows(ttl, RealMax(c.refill, floor), 2.0 * c.refill);
  }

  /** A bucket that never refills comes back full once its key expires. */
  lemma ZeroRefillIsObservable(capacity: real, floor: real)
    requires capacity > 0.0 && floor > 0.0
    ensures !ExpiryIsUnobservable(Config(capacity, 0.0), floor)
  {
    ExpiryUnobservableIff(Config(capacity, 0.0), floor);
  }

  function Seconds(ms: int): real { ms as real / 1000.0 }

  lemma SecondsApart(a: int, b: int, s: int)
    ensures (b - a) as real / 1000.0 == Seconds(b) - Seconds(a)
    ensures a + s * 1000 <= b ==> s as real <= Seconds(b) - Seconds(a)
  {
  }

  /** What Redis keeps under one key. */
  datatype Bucket = Bucket(tokens: real, tsMs: int, expiresAtMs: int)

  /** Calls made under a key: since the key was last removed, and ever.  sound: the clock has never stepped back
      and the key has only been removed once expired. */
  datatype Past = Past(recent: seq<Call>, all: seq<Call>, sound: bool)

  ghost predicate KeyValid(c: Config, floor: real, b: Bucket, p: Past)
    requires floor > 0.0
  {
    && p.recent != [] && p.all != []
    && Legal(c, p.recent) && b.tokens == Left(c, p.recent)
    && Last(p.recent).now == Last(p.all).now == Seconds(b.tsMs)
    && b.expiresAtMs == b.tsMs + Ttl(c, floor) * 1000
    && (p.sound ==> Nondecreasing(p.all, Seconds(b.tsMs)))
    && (p.sound && RefillsBeforeExpiry(c, floor) ==> Legal(c, p.all) && Left(c, p.all) == b.tokens)
  }

  /** The balance t read at nowMs is the right one for the calls in p. */
  ghost predicate Reading(c: Config, floor: real, p: Past, nowMs: int, t: real)
    requires floor > 0.0
  {
    && Legal(c, p.recent) && t == Available(c, p.recent, Seconds(nowMs))
    && (p.sound ==> Nondecreasing(p.all, Seconds(nowMs)))
    && (p.sound && RefillsBeforeExpiry(c, floor) ==> Legal(c, p.all) && t == Available(c, p.all, Seconds(nowMs)))
  }

  function Refilled(c: Config, b: Bucket, nowMs: int): real {
    var elapsed := RealMax(0.0, (nowMs - b.tsMs) as real / 1000.0);
    RealMin(c.capacity, b.tokens + elapsed * c.refill)
  }

  lemma ReadKept(c: Config, floor: real, b: Bucket, p: Past, nowMs: int)
    requires floor > 0.0 && KeyValid(c, floor, b, p)
    ensures Reading(c, floor, p.(sound := p.sound && b.tsMs <= nowMs), nowMs, Refilled(c, b, nowMs))
  {
    hide Ttl, Seconds, RefillsBeforeExpiry, Left, Legal, Nondecreasing;
    SecondsApart(b.tsMs, nowMs, 0);
    assert RealMax(0.0, (nowMs - b.tsMs) as real / 1000.0) == RealMax(0.0, Seconds(nowMs) - Seconds(b.tsMs));
    if p.sound && b.tsMs <= nowMs {
      NondecreasingLater(p.all, Seconds(b.tsMs), Seconds(nowMs));
    }
  }

  lemma ReadRemoved(c: Config, floor: real, b: Bucket, p: Past, nowMs: int)
    requires floor > 0.0 && c.capacity >= 0.0 && c.refill >= 0.0 && KeyValid(c, floor, b, p)
    ensures var sound := p.sound && b.tsMs <= nowMs && b.expiresAtMs <= nowMs;
      Reading(c, floor, Past([], p.all, sound), nowMs, c.capacity)
  {
    hide Ttl, Seconds, RefillsBeforeExpiry, Left;
    SecondsApart(b.tsMs, nowMs, 0);
    SecondsApart(b.tsMs, nowMs, Ttl(c, floor));
    if p.sound && b.tsMs <= nowMs && b.expiresAtMs <= nowMs {
      NondecreasingLater(p.all, Seconds(b.tsMs), Seconds(nowMs));
      if RefillsBeforeExpiry(c, floor) {
        FullAfterTtl(c, floor, p.all, Seconds(nowMs));
      }
    }
  }

  function Written(c: Config, floor: real, nowMs: int, tokens: real): Bucket
    requires floor > 0.0
  {
    Bucket(tokens, nowMs, nowMs + Ttl(c, floor) * 1000)
  }

  lemma AfterCall(c: Config, floor: real, p: Past, nowMs: int, cost: real, t: real)
    requires floor > 0.0 && Reading(c, floor, p, nowMs, t)
    ensures var e := Call(Seconds(nowMs), cost, t >= cost);
      KeyValid(c, floor, Written(c, floor, nowMs, if t >= cost then t - cost else t), Past(p.recent + [e], p.all + [e], p.sound))
    ensures t >= cost <==> FitsEveryWindow(c, p.recent, Seconds(nowMs), cost)
    ensures p.sound && RefillsBeforeExpiry(c, floor) ==> (t >= cost <==> FitsEveryWindow(c, p.all, Seconds(nowMs), cost))
  {
    hide Ttl, Seconds, RefillsBeforeExpiry, Available, Left, Legal, FitsEveryWindow, Nondecreasing;
    var now := Seconds(nowMs);
    DecideByBalance(c, p.recent, now, cost, t);
    if p.sound && RefillsBeforeExpiry(c, floor) { DecideByBalance(c, p.all, now, cost, t); }
    if p.sound { NondecreasingExtends(p.all, Call(now, cost, t >= cost)); }
  }

  class RedisRateLimiter {
    const config: Config
    const floor: real
    var store: map<string, Bucket>
    ghost var past: map<string, Past>

    ghost predicate Valid()
      reads this
    {
      && floor > 0.0 && config.capacity >= 0.0 && config.refill >= 0.0
      && store.Keys == past.Keys
      && forall key :: key in store ==> KeyValid(config, floor, store[key], past[key])
    }

    /** The calls a run of the script may know about: none if the key is missing or has been removed. */
    ghost function PastOf(key: string, removed: bool, nowMs: int): Past
      reads this
    {
      if key !in past || key !in store then Past([], [], true)
      else
        var sound := past[key].sound && store[key].tsMs <= nowMs && (removed ==> store[key].expiresAtMs <= nowMs);
        Past(if removed then [] else past[key].recent, past[key].all, sound)
    }

    constructor (config: Config, floor: real)
      requires floor > 0.0 && config.capacity >= 0.0 && config.refill >= 0.0
      ensures Valid() && past == map[] && this.config == config && this.floor == floor
    {
      this.config, this.floor := config, floor;
      store, past := map[], map[];
    }

    /** One run of the script.  The key may have been removed since its last call.  On any clock the decision is the
        window rule over the calls since the last removal; when the run has been sound and keys refill before they
        expire it is the window rule over the whole history, the very rule the in-memory limiter follows. */
    method Allow(key: string, cost: real, nowMs: int, removed: bool) returns (allowed: bool)
      requires Valid()
      modifies this
      ensures Valid()
      ensures var p := old(PastOf(key, removed, nowMs));
        && (allowed <==> FitsEveryWindow(config, p.recent, Seconds(nowMs), cost))
        && (p.sound && RefillsBeforeExpiry(config, floor) ==>
              (allowed <==> FitsEveryWindow(config, p.all, Seconds(nowMs), cost)))
      ensures var p, e := old(PastOf(key, removed, nowMs)), Call(Seconds(nowMs), cost, allowed);
        past == old(past)[key := Past(p.recent + [e], p.all + [e], p.sound)]
      ensures key in store && store[key].tsMs == nowMs && store[key].expiresAtMs == nowMs + Ttl(config, floor) * 1000
      ensures forall k :: k != key && k in old(store) ==> k in store && store[k] == old(store[k])
    {
      hide FitsEveryWindow, Ttl, RefillsBeforeExpiry, Seconds, KeyValid, Refilled;
      ghost var p := PastOf(key, removed, nowMs);
      var tokens;
      if key !in store || removed {
        tokens := config.capacity;
        if key in store { ReadRemoved(config, floor, store[key], past[key], nowMs); }
      } else {
        tokens := Refilled(config, store[key], nowMs);
        ReadKept(config, floor, store[key], past[key], nowMs);
      }
      assert Reading(config, floor, p, nowMs, tokens);
      AfterCall(config, floor, p, nowMs, cost, tokens);
      allowed := false;
      if tokens >= cost {
        tokens := tokens - cost;
        allowed := true;
      }
      ghost var e := Call(Seconds(nowMs), cost, allowed);
      store := store[key := Written(config, floor, nowMs, tokens)];
      past := past[key := Past(p.recent + [e], p.all + [e], p.sound)];
    }
  }
}
