/** Indexed temporal joins over the extracted graph, proved equal to their naive definitions on the raw edge list. */
module TemporalJoins {
  import opened Basics
  import opened GraphIndex

  ghost predicate Owns(edges: seq<Edge>, number: string, wallet: string) {
    Links(edges, "OWNS", "Number", "Wallet", number, wallet)
  }

  method OwnedWallets(edges: seq<Edge>) returns (owns: map<string, seq<string>>)
    ensures forall n, w :: w in Ids(owns, n) <==> Owns(edges, n, w)
    ensures LinkedOnce(edges, "OWNS", "Number", "Wallet") ==> forall n :: Once(Ids(owns, n))
  {
    owns := OutgoingDstIds(edges, "OWNS", "Number", "Wallet");
  }

  // ---------- voice_then_momo_30m ----------

  /** A call, a wallet of the caller, and the payment that followed. */
  datatype Payment = Payment(call: Edge, wallet: string, send: Edge)

  /** The motif on the raw edges: the caller's wallet pays a wallet of the callee in time. */
  ghost predicate PaysAfterCall(edges: seq<Edge>, minMs: int, maxMs: int, m: Payment) {
    && m.call in edges && m.call.kind == "CALLED"
    && Owns(edges, m.call.srcId, m.wallet)
    && m.send in edges && IsOutgoing(m.send, "SENT", "Wallet", "Wallet") && m.send.srcId == m.wallet
    && Owns(edges, m.call.dstId, m.send.dstId)
    && minMs <= m.send.ts - m.call.ts <= maxMs
  }

  ghost predicate SomePayment(edges: seq<Edge>, minMs: int, maxMs: int, call: Edge, wallet: string) {
    exists send :: PaysAfterCall(edges, minMs, maxMs, Payment(call, wallet, send))
  }

  ghost predicate EarliestPayment(edges: seq<Edge>, minMs: int, maxMs: int, m: Payment) {
    && PaysAfterCall(edges, minMs, maxMs, m)
    && forall send :: PaysAfterCall(edges, minMs, maxMs, Payment(m.call, m.wallet, send)) ==> m.send.ts <= send.ts
  }

  function Reported(ms: seq<Payment>): set<(Edge, string)> {
    set m | m in ms :: (m.call, m.wallet)
  }

  /** No call is reported twice for the same wallet. */
  ghost predicate PaysOnce(ms: seq<Payment>) {
    forall i, j :: 0 <= i < j < |ms| ==> ms[i].call != ms[j].call || ms[i].wallet != ms[j].wallet
  }

  lemma PaysOnceAppend(a: seq<Payment>, b: seq<Payment>)
    requires PaysOnce(a) && PaysOnce(b) && Reported(a) !! Reported(b)
    ensures PaysOnce(a + b)
  {
    var ms := a + b;
    forall i, j | 0 <= i < |a| <= j < |ms| ensures ms[i].call != ms[j].call || ms[i].wallet != ms[j].wallet {
      assert ms[i] in a && ms[j] in b;
      assert (ms[i].call, ms[i].wallet) in Reported(a) && (ms[j].call, ms[j].wallet) in Reported(b);
    }
  }

  /** Matches of one call, over the caller's wallets. */
  method PaymentsAfter(edges: seq<Edge>, call: Edge, callerWallets: seq<string>, calleeWallets: seq<string>,
                       sends: map<string, seq<Edge>>, minMs: int, maxMs: int)
    returns (ms: seq<Payment>)
    requires IsIndex(sends, edges, (e: Edge) => IsOutgoing(e, "SENT", "Wallet", "Wallet"), (e: Edge) => e.srcId)
    requires forall w :: w in callerWallets <==> Owns(edges, call.srcId, w)
    requires forall w :: w in calleeWallets <==> Owns(edges, call.dstId, w)
    requires call in edges && call.kind == "CALLED"
    ensures forall m :: m in ms ==> EarliestPayment(edges, minMs, maxMs, m)
    ensures forall c: Edge, w :: (c, w) in Reported(ms) <==> c == call && SomePayment(edges, minMs, maxMs, c, w)
    ensures Once(callerWallets) ==> PaysOnce(ms)
  {
    hide IsIndex, Owns, First, Sort, PaysOnce;
    NoPayments();
    var select, key := (e: Edge) => IsOutgoing(e, "SENT", "Wallet", "Wallet"), (e: Edge) => e.srcId;
    var p := (e: Edge) => e.dstId in calleeWallets && minMs <= e.ts - call.ts <= maxMs;
    ms := [];
    for i := 0 to |callerWallets|
      invariant forall m :: m in ms ==> EarliestPayment(edges, minMs, maxMs, m)
      invariant forall c: Edge, w ::
        (c, w) in Reported(ms) <==> c == call && w in callerWallets[..i] && SomePayment(edges, minMs, maxMs, c, w)
      invariant Once(callerWallets) ==> PaysOnce(ms)
    {
      var w := callerWallets[i];
      var send := FindFirst(Entry(sends, w), p);
      FirstInIndex(sends, edges, select, key, w, p);
      assert forall e :: Candidate(edges, select, key, w, p, e) <==> PaysAfterCall(edges, minMs, maxMs, Payment(call, w, e));
      assert callerWallets[..i + 1] == callerWallets[..i] + [w];
      if send.Some? {
        ghost var before := ms;
        if Once(callerWallets) {
          assert w !in callerWallets[..i];
          assert Reported([Payment(call, w, send.value)]) == {(call, w)};
          PaysOnceAppend(ms, [Payment(call, w, send.value)]);
        }
        ms := ms + [Payment(call, w, send.value)];
        assert Reported(ms) == Reported(before) + {(call, w)};
      }
    }
    assert callerWallets[..|callerWallets|] == callerWallets;
    forall w | SomePayment(edges, minMs, maxMs, call, w) ensures w in callerWallets {}
  }

  lemma NoPayments()
    ensures PaysOnce([]) && forall m :: PaysOnce([m])
  {
  }

  /** A (call, caller wallet) pair is reported exactly when a qualifying payment exists in the raw edge list, and
      the payment reported with it is the earliest one.  Without repeated edges nothing is reported twice. */
  method DetectVoiceThenMomo(edges: seq<Edge>, maxMs: int := 1800000, minMs: int := 0) returns (ms: seq<Payment>)
    ensures forall m :: m in ms ==> EarliestPayment(edges, minMs, maxMs, m)
    ensures forall c: Edge, w :: (c, w) in Reported(ms) <==> SomePayment(edges, minMs, maxMs, c, w)
    ensures Once(edges) && LinkedOnce(edges, "OWNS", "Number", "Wallet") ==> PaysOnce(ms)
  {
    hide IsIndex, Owns, Links, ByTime, Once, PaysOnce, LinkedOnce;
    NoPayments();
    var calls := ByEndpoints(edges, "CALLED");
    var owns := OwnedWallets(edges);
    var sends := OutgoingEdges(edges, "SENT", "Wallet", "Wallet");
    ms := [];
    forall c: Edge ensures c in Entry(calls, (c.srcId, c.dstId)) <==> c in edges && c.kind == "CALLED" {
      InIndex(calls, edges, (e: Edge) => e.kind == "CALLED", (e: Edge) => (e.srcId, e.dstId), (c.srcId, c.dstId), c);
    }
    var todo := calls.Keys;
    while todo != {}
      invariant todo <= calls.Keys
      invariant forall m :: m in ms ==> EarliestPayment(edges, minMs, maxMs, m)
      invariant forall c: Edge, w :: (c, w) in Reported(ms) <==>
        (c.srcId, c.dstId) !in todo && SomePayment(edges, minMs, maxMs, c, w)
      invariant Once(edges) && LinkedOnce(edges, "OWNS", "Number", "Wallet") ==> PaysOnce(ms)
      decreases |todo|
    {
      var k :| k in todo;
      var found := PaymentsOfGroup(edges, k, calls, owns, sends, minMs, maxMs);
      assert Reported(ms + found) == Reported(ms) + Reported(found);
      if Once(edges) && LinkedOnce(edges, "OWNS", "Number", "Wallet") { PaysOnceAppend(ms, found); }
      ms := ms + found;
      todo := todo - {k};
    }
  }

  /** All calls between two numbers; nothing to do unless both own wallets. */
  method PaymentsOfGroup(edges: seq<Edge>, k: (string, string), calls: map<(string, string), seq<Edge>>,
                         owns: map<string, seq<string>>, sends: map<string, seq<Edge>>, minMs: int, maxMs: int)
    returns (ms: seq<Payment>)
    requires IsIndex(calls, edges, (e: Edge) => e.kind == "CALLED", (e: Edge) => (e.srcId, e.dstId)) && k in calls
    requires forall n, w :: w in Ids(owns, n) <==> Owns(edges, n, w)
    requires IsIndex(sends, edges, (e: Edge) => IsOutgoing(e, "SENT", "Wallet", "Wallet"), (e: Edge) => e.srcId)
    ensures forall m :: m in ms ==> EarliestPayment(edges, minMs, maxMs, m)
    ensures forall c: Edge, w :: (c, w) in Reported(ms) <==> (c.srcId, c.dstId) == k && SomePayment(edges, minMs, maxMs, c, w)
    ensures Once(edges) && (forall n :: Once(Ids(owns, n))) ==> PaysOnce(ms)
  {
    hide IsIndex, Owns, Once, PaysOnce;
    NoPayments();
    var callerWallets, calleeWallets := Ids(owns, k.0), Ids(owns, k.1);
    ms := [];
    var group := calls[k];
    forall c ensures c in group <==> c in edges && c.kind == "CALLED" && (c.srcId, c.dstId) == k {
      InIndex(calls, edges, (e: Edge) => e.kind == "CALLED", (e: Edge) => (e.srcId, e.dstId), k, c);
    }
    if callerWallets == [] || calleeWallets == [] {
      forall c: Edge, w, s: Edge | (c.srcId, c.dstId) == k ensures !PaysAfterCall(edges, minMs, maxMs, Payment(c, w, s)) {
        assert w !in callerWallets || s.dstId !in calleeWallets;
      }
      return;
    }
    for i := 0 to |group|
      invariant forall m :: m in ms ==> EarliestPayment(edges, minMs, maxMs, m)
      invariant forall c: Edge, w :: (c, w) in Reported(ms) <==> c in group[..i] && SomePayment(edges, minMs, maxMs, c, w)
      invariant Once(edges) && (forall n :: Once(Ids(owns, n))) ==> PaysOnce(ms)
    {
      assert group[i] in group;
      var found := PaymentsAfter(edges, group[i], callerWallets, calleeWallets, sends, minMs, maxMs);
      assert group[..i + 1] == group[..i] + [group[i]];
      assert Reported(ms + found) == Reported(ms) + Reported(found);
      if Once(edges) && forall n :: Once(Ids(owns, n)) {
        OnceEntry(calls, edges, (e: Edge) => e.kind == "CALLED", (e: Edge) => (e.srcId, e.dstId), k);
        NotBefore(group, i);
        PaysOnceAppend(ms, found);
      }
      ms := ms + found;
    }
    assert group[..|group|] == group;
  }

  lemma NotBefore(s: seq<Edge>, i: nat)
    requires Once(s) && i < |s|
    ensures s[i] !in s[..i]
  {
  }

  // ---------- sms_url_blocklist ----------

  /** A message and the flagged query that followed. */
  datatype Click = Click(sms: Edge, query: Edge)

  ghost predicate QueriesAfterSms(edges: seq<Edge>, flagged: set<string>, maxMs: int, m: Click) {
    && m.sms in edges && m.sms.kind == "SMSED"
    && m.query in edges && IsOutgoing(m.query, "QUERIED", "Number", "Domain") && m.query.srcId == m.sms.dstId
    && m.query.dstId in flagged
    && 0 < m.query.ts - m.sms.ts <= maxMs
  }

  ghost predicate SomeQuery(edges: seq<Edge>, flagged: set<string>, maxMs: int, sms: Edge) {
    exists query :: QueriesAfterSms(edges, flagged, maxMs, Click(sms, query))
  }

  ghost predicate EarliestQuery(edges: seq<Edge>, flagged: set<string>, maxMs: int, m: Click) {
    && QueriesAfterSms(edges, flagged, maxMs, m)
    && forall query :: QueriesAfterSms(edges, flagged, maxMs, Click(m.sms, query)) ==> m.query.ts <= query.ts
  }

  function Clicked(ms: seq<Click>): set<Edge> {
    set m | m in ms :: m.sms
  }

  /** No message is reported twice. */
  ghost predicate ClickedOnce(ms: seq<Click>) { forall i, j :: 0 <= i < j < |ms| ==> ms[i].sms != ms[j].sms }

  lemma ClickedOnceAppend(a: seq<Click>, b: seq<Click>)
    requires ClickedOnce(a) && ClickedOnce(b) && Clicked(a) !! Clicked(b)
    ensures ClickedOnce(a + b)
  {
    var ms := a + b;
    forall i, j | 0 <= i < |a| <= j < |ms| ensures ms[i].sms != ms[j].sms {
      assert ms[i] in a && ms[j] in b;
      assert ms[i].sms in Clicked(a) && ms[j].sms in Clicked(b);
    }
  }

  lemma NoClicks()
    ensures ClickedOnce([]) && forall m :: ClickedOnce([m])
  {
  }

  /** All messages from one sender to one recipient. */
  method ClicksOfGroup(edges: seq<Edge>, k: (string, string), smses: map<(string, string), seq<Edge>>,
                       queries: map<string, seq<Edge>>, flagged: set<string>, maxMs: int)
    returns (ms: seq<Click>)
    requires IsIndex(smses, edges, (e: Edge) => e.kind == "SMSED", (e: Edge) => (e.srcId, e.dstId)) && k in smses
    requires IsIndex(queries, edges, (e: Edge) => IsOutgoing(e, "QUERIED", "Number", "Domain"), (e: Edge) => e.srcId)
    ensures forall m :: m in ms ==> EarliestQuery(edges, flagged, maxMs, m)
    ensures forall s: Edge :: s in Clicked(ms) <==> (s.srcId, s.dstId) == k && SomeQuery(edges, flagged, maxMs, s)
    ensures Once(edges) ==> ClickedOnce(ms)
  {
    hide IsIndex, First, Once, ClickedOnce;
    NoClicks();
    var select, key := (e: Edge) => IsOutgoing(e, "QUERIED", "Number", "Domain"), (e: Edge) => e.srcId;
    ms := [];
    var group := smses[k];
    forall s ensures s in group <==> s in edges && s.kind == "SMSED" && (s.srcId, s.dstId) == k {
      InIndex(smses, edges, (e: Edge) => e.kind == "SMSED", (e: Edge) => (e.srcId, e.dstId), k, s);
    }
    for i := 0 to |group|
      invariant forall m :: m in ms ==> EarliestQuery(edges, flagged, maxMs, m)
      invariant forall s: Edge :: s in Clicked(ms) <==> s in group[..i] && SomeQuery(edges, flagged, maxMs, s)
      invariant Once(edges) ==> ClickedOnce(ms)
    {
      var s := group[i];
      assert s in group;
      var p := (q: Edge) => q.dstId in flagged && 0 < q.ts - s.ts <= maxMs;
      var hit := FindFirst(Entry(queries, k.1), p);
      FirstInIndex(queries, edges, select, key, k.1, p);
      assert forall q :: Candidate(edges, select, key, k.1, p, q) <==> QueriesAfterSms(edges, flagged, maxMs, Click(s, q));
      assert group[..i + 1] == group[..i] + [s];
      if hit.Some? {
        ghost var before := ms;
        if Once(edges) {
          OnceEntry(smses, edges, (e: Edge) => e.kind == "SMSED", (e: Edge) => (e.srcId, e.dstId), k);
          NotBefore(group, i);
          assert Clicked([Click(s, hit.value)]) == {s};
          ClickedOnceAppend(ms, [Click(s, hit.value)]);
        }
        ms := ms + [Click(s, hit.value)];
        assert Clicked(ms) == Clicked(before) + {s};
      }
    }
    assert group[..|group|] == group;
  }

  /** A message is reported exactly when its recipient queried a flagged domain in time, with the earliest query. */
  method DetectSmsUrlBlocklist(edges: seq<Edge>, flagged: set<string>, maxMs: int := 3600000) returns (ms: seq<Click>)
    ensures forall m :: m in ms ==> EarliestQuery(edges, flagged, maxMs, m)
    ensures forall s: Edge :: s in Clicked(ms) <==> SomeQuery(edges, flagged, maxMs, s)
    ensures Once(edges) ==> ClickedOnce(ms)
  {
    NoClicks();
    ms := [];
    if flagged == {} { return; }
    hide IsIndex, ByTime, Once, ClickedOnce;
    var smses := ByEndpoints(edges, "SMSED");
    var queries := OutgoingEdges(edges, "QUERIED", "Number", "Domain");
    forall s: Edge ensures s in Entry(smses, (s.srcId, s.dstId)) <==> s in edges && s.kind == "SMSED" {
      InIndex(smses, edges, (e: Edge) => e.kind == "SMSED", (e: Edge) => (e.srcId, e.dstId), (s.srcId, s.dstId), s);
    }
    var todo := smses.Keys;
    while todo != {}
      invariant todo <= smses.Keys
      invariant forall m :: m in ms ==> EarliestQuery(edges, flagged, maxMs, m)
      invariant forall s: Edge :: s in Clicked(ms) <==> (s.srcId, s.dstId) !in todo && SomeQuery(edges, flagged, maxMs, s)
      invariant Once(edges) ==> ClickedOnce(ms)
      decreases |todo|
    {
      var k :| k in todo;
      var found := ClicksOfGroup(edges, k, smses, queries, flagged, maxMs);
      assert Clicked(ms + found) == Clicked(ms) + Clicked(found);
      if Once(edges) { ClickedOnceAppend(ms, found); }
      ms := ms + found;
      todo := todo - {k};
    }
  }

  // ---------- voice_sms_momo_24h ----------

  /** A call, the message that followed it, a wallet of the callee, and the transfer out of it. */
  datatype Fingerprint = Fingerprint(call: Edge, sms: Edge, wallet: string, send: Edge)

  ghost predicate SmsAfterCall(edges: seq<Edge>, smsMs: int, call: Edge, sms: Edge) {
    && call in edges && call.kind == "CALLED"
    && sms in edges && sms.kind == "SMSED" && sms.srcId == call.srcId && sms.dstId == call.dstId
    && 0 < sms.ts - call.ts <= smsMs
  }

  ghost predicate SendAfterSms(edges: seq<Edge>, momoMs: int, sms: Edge, wallet: string, send: Edge) {
    && Owns(edges, sms.dstId, wallet)
    && send in edges && IsOutgoing(send, "SENT", "Wallet", "Wallet") && send.srcId == wallet
    && 0 < send.ts - sms.ts <= momoMs
  }

  ghost predicate EarliestSms(edges: seq<Edge>, smsMs: int, call: Edge, sms: Edge) {
    SmsAfterCall(edges, smsMs, call, sms) && forall s :: SmsAfterCall(edges, smsMs, call, s) ==> sms.ts <= s.ts
  }

  /** The three steps are there, the message is the earliest after the call, the transfer the earliest after it. */
  ghost predicate IsFingerprint(edges: seq<Edge>, smsMs: int, momoMs: int, m: Fingerprint) {
    && EarliestSms(edges, smsMs, m.call, m.sms)
    && SendAfterSms(edges, momoMs, m.sms, m.wallet, m.send)
    && forall s :: SendAfterSms(edges, momoMs, m.sms, m.wallet, s) ==> m.send.ts <= s.ts
  }

  /** What the detector can see: a transfer in time after the earliest message. */
  ghost predicate Visible(edges: seq<Edge>, smsMs: int, momoMs: int, call: Edge, wallet: string) {
    exists sms, send :: EarliestSms(edges, smsMs, call, sms) && SendAfterSms(edges, momoMs, sms, wallet, send)
  }

  /** The pattern as documented: some message after the call, some transfer after that message. */
  ghost predicate Pattern(edges: seq<Edge>, smsMs: int, momoMs: int, call: Edge, wallet: string) {
    exists sms, send :: SmsAfterCall(edges, smsMs, call, sms) && SendAfterSms(edges, momoMs, sms, wallet, send)
  }

  function Fingerprinted(ms: seq<Fingerprint>): set<(Edge, string)> {
    set m | m in ms :: (m.call, m.wallet)
  }

  /** No call is reported twice for the same wallet. */
  ghost predicate FoundOnce(ms: seq<Fingerprint>) {
    forall i, j :: 0 <= i < j < |ms| ==> ms[i].call != ms[j].call || ms[i].wallet != ms[j].wallet
  }

  lemma FoundOnceAppend(a: seq<Fingerprint>, b: seq<Fingerprint>)
    requires FoundOnce(a) && FoundOnce(b) && Fingerprinted(a) !! Fingerprinted(b)
    ensures FoundOnce(a + b)
  {
    var ms := a + b;
    forall i, j | 0 <= i < |a| <= j < |ms| ensures ms[i].call != ms[j].call || ms[i].wallet != ms[j].wallet {
      assert ms[i] in a && ms[j] in b;
      assert (ms[i].call, ms[i].wallet) in Fingerprinted(a) && (ms[j].call, ms[j].wallet) in Fingerprinted(b);
    }
  }

  lemma NothingFound()
    ensures FoundOnce([]) && forall m :: FoundOnce([m])
  {
  }

  /** Which instances of the documented pattern are missed: those whose transfers all come too late for the
      earliest message, although some later message still precedes one of them in time. */
  lemma VisibleIff(edges: seq<Edge>, smsMs: int, momoMs: int, call: Edge, wallet: string, first: Edge)
    requires EarliestSms(edges, smsMs, call, first)
    ensures Visible(edges, smsMs, momoMs, call, wallet) <==>
      Pattern(edges, smsMs, momoMs, call, wallet)
      && exists send :: SendAfterSms(edges, momoMs, first, wallet, send)
    ensures Pattern(edges, smsMs, momoMs, call, wallet) && !Visible(edges, smsMs, momoMs, call, wallet) ==>
      forall sms, send :: SmsAfterCall(edges, smsMs, call, sms) && SendAfterSms(edges, momoMs, sms, wallet, send) ==>
        send.ts > first.ts + momoMs && sms.ts > first.ts
  {
    hide Owns;
    forall sms, send | EarliestSms(edges, smsMs, call, sms) && SendAfterSms(edges, momoMs, sms, wallet, send)
      ensures SendAfterSms(edges, momoMs, first, wallet, send)
    {
      assert sms.ts == first.ts;
    }
    forall sms, send | SmsAfterCall(edges, smsMs, call, sms) && SendAfterSms(edges, momoMs, sms, wallet, send)
      ensures send.ts <= first.ts + momoMs ==> SendAfterSms(edges, momoMs, first, wallet, send)
    {
    }
  }

  const CALL := Edge("CALLED", "Number", "a", "Number", "b", 0, 0)
  const EARLY_SMS := Edge("SMSED", "Number", "a", "Number", "b", 1, 0)
  const LATE_SMS := Edge("SMSED", "Number", "a", "Number", "b", 3600000, 0)
  const OWNERSHIP := Edge("OWNS", "Number", "b", "Wallet", "w", 0, 0)
  const TRANSFER := Edge("SENT", "Wallet", "w", "Wallet", "x", 86400002, 500)
  const MISSED := [CALL, EARLY_SMS, LATE_SMS, OWNERSHIP, TRANSFER]

  /** With the default windows: the documented pattern is there and the detector does not see it. */
  lemma PatternCanBeMissed()
    ensures Pattern(MISSED, 3600000, 86400000, CALL, "w")
    ensures !Visible(MISSED, 3600000, 86400000, CALL, "w")
  {
    assert OWNERSHIP in MISSED && Owns(MISSED, "b", "w");
    hide Owns;
    assert LATE_SMS in MISSED && CALL in MISSED && TRANSFER in MISSED && EARLY_SMS in MISSED;
    assert SmsAfterCall(MISSED, 3600000, CALL, LATE_SMS) && SendAfterSms(MISSED, 86400000, LATE_SMS, "w", TRANSFER);
    assert EarliestSms(MISSED, 3600000, CALL, EARLY_SMS);
    forall s ensures !SendAfterSms(MISSED, 86400000, EARLY_SMS, "w", s) {
      if s in MISSED && s.kind == "SENT" { assert s == TRANSFER; }
    }
    VisibleIff(MISSED, 3600000, 86400000, CALL, "w", EARLY_SMS);
  }

  /** Matches of one call, over the callee's wallets, given the message found after it. */
  method SendsAfter(edges: seq<Edge>, call: Edge, sms: Edge, wallets: seq<string>, sends: map<string, seq<Edge>>,
                    smsMs: int, momoMs: int)
    returns (ms: seq<Fingerprint>)
    requires IsIndex(sends, edges, (e: Edge) => IsOutgoing(e, "SENT", "Wallet", "Wallet"), (e: Edge) => e.srcId)
    requires EarliestSms(edges, smsMs, call, sms)
    requires forall w :: w in wallets <==> Owns(edges, call.dstId, w)
    ensures forall m :: m in ms ==> IsFingerprint(edges, smsMs, momoMs, m)
    ensures forall c: Edge, w :: (c, w) in Fingerprinted(ms) <==> c == call && Visible(edges, smsMs, momoMs, c, w)
    ensures Once(wallets) ==> FoundOnce(ms)
  {
    hide IsIndex, Owns, First, FoundOnce;
    NothingFound();
    var select, key := (e: Edge) => IsOutgoing(e, "SENT", "Wallet", "Wallet"), (e: Edge) => e.srcId;
    var p := (e: Edge) => 0 < e.ts - sms.ts <= momoMs;
    ms := [];
    for i := 0 to |wallets|
      invariant forall m :: m in ms ==> IsFingerprint(edges, smsMs, momoMs, m)
      invariant forall c: Edge, w :: (c, w) in Fingerprinted(ms) <==>
        c == call && w in wallets[..i] && Visible(edges, smsMs, momoMs, c, w)
      invariant Once(wallets) ==> FoundOnce(ms)
    {
      var w := wallets[i];
      var send := FindFirst(Entry(sends, w), p);
      FirstInIndex(sends, edges, select, key, w, p);
      assert forall e :: Candidate(edges, select, key, w, p, e) <==> SendAfterSms(edges, momoMs, sms, w, e);
      VisibleIff(edges, smsMs, momoMs, call, w, sms);
      assert wallets[..i + 1] == wallets[..i] + [w];
      if send.Some? {
        ghost var before := ms;
        if Once(wallets) {
          assert w !in wallets[..i];
          assert Fingerprinted([Fingerprint(call, sms, w, send.value)]) == {(call, w)};
          FoundOnceAppend(ms, [Fingerprint(call, sms, w, send.value)]);
        }
        ms := ms + [Fingerprint(call, sms, w, send.value)];
        assert Fingerprinted(ms) == Fingerprinted(before) + {(call, w)};
        assert SmsAfterCall(edges, smsMs, call, sms);
      }
    }
    assert wallets[..|wallets|] == wallets;
    forall w | Visible(edges, smsMs, momoMs, call, w) ensures w in wallets {}
  }

  /** Matches of one call: its first message in time, then the transfers after that. */
  method FingerprintsOfCall(edges: seq<Edge>, call: Edge, smses: map<(string, string), seq<Edge>>, wallets: seq<string>,
                            sends: map<string, seq<Edge>>, smsMs: int, momoMs: int)
    returns (ms: seq<Fingerprint>)
    requires IsIndex(smses, edges, (e: Edge) => e.kind == "SMSED", (e: Edge) => (e.srcId, e.dstId))
    requires IsIndex(sends, edges, (e: Edge) => IsOutgoing(e, "SENT", "Wallet", "Wallet"), (e: Edge) => e.srcId)
    requires forall w :: w in wallets <==> Owns(edges, call.dstId, w)
    requires call in edges && call.kind == "CALLED"
    ensures forall m :: m in ms ==> IsFingerprint(edges, smsMs, momoMs, m)
    ensures forall c: Edge, w :: (c, w) in Fingerprinted(ms) <==> c == call && Visible(edges, smsMs, momoMs, c, w)
    ensures Once(wallets) ==> FoundOnce(ms)
  {
    hide IsIndex, Owns, First, FoundOnce;
    NothingFound();
    var select, ends, k := (e: Edge) => e.kind == "SMSED", (e: Edge) => (e.srcId, e.dstId), (call.srcId, call.dstId);
    var p := (s: Edge) => 0 < s.ts - call.ts <= smsMs;
    var sms := FindFirst(Entry(smses, k), p);
    FirstInIndex(smses, edges, select, ends, k, p);
    assert forall s :: Candidate(edges, select, ends, k, p, s) <==> SmsAfterCall(edges, smsMs, call, s);
    if sms.Some? {
      ms := SendsAfter(edges, call, sms.value, wallets, sends, smsMs, momoMs);
    } else {
      ms := [];
    }
  }

  lemma NothingVisible(edges: seq<Edge>, k: (string, string), smses: map<(string, string), seq<Edge>>,
                       wallets: seq<string>, smsMs: int, momoMs: int, c: Edge, w: string)
    requires IsIndex(smses, edges, (e: Edge) => e.kind == "SMSED", (e: Edge) => (e.srcId, e.dstId))
    requires forall v :: v in wallets <==> Owns(edges, k.1, v)
    requires (Entry(smses, k) == [] || wallets == []) && (c.srcId, c.dstId) == k
    ensures !Visible(edges, smsMs, momoMs, c, w)
  {
    hide IsIndex, Owns;
    forall s ensures s in Entry(smses, k) <==> s in edges && s.kind == "SMSED" && (s.srcId, s.dstId) == k {
      InIndex(smses, edges, (e: Edge) => e.kind == "SMSED", (e: Edge) => (e.srcId, e.dstId), k, s);
    }
    assert wallets == [] ==> !Owns(edges, k.1, w);
  }

  method FingerprintsOfGroup(edges: seq<Edge>, k: (string, string), calls: map<(string, string), seq<Edge>>,
                             smses: map<(string, string), seq<Edge>>, owns: map<string, seq<string>>,
                             sends: map<string, seq<Edge>>, smsMs: int, momoMs: int)
    returns (ms: seq<Fingerprint>)
    requires IsIndex(calls, edges, (e: Edge) => e.kind == "CALLED", (e: Edge) => (e.srcId, e.dstId)) && k in calls
    requires IsIndex(smses, edges, (e: Edge) => e.kind == "SMSED", (e: Edge) => (e.srcId, e.dstId))
    requires forall n, w :: w in Ids(owns, n) <==> Owns(edges, n, w)
    requires IsIndex(sends, edges, (e: Edge) => IsOutgoing(e, "SENT", "Wallet", "Wallet"), (e: Edge) => e.srcId)
    ensures forall m :: m in ms ==> IsFingerprint(edges, smsMs, momoMs, m)
    ensures forall c: Edge, w :: (c, w) in Fingerprinted(ms) <==>
      (c.srcId, c.dstId) == k && Visible(edges, smsMs, momoMs, c, w)
    ensures Once(edges) && (forall n :: Once(Ids(owns, n))) ==> FoundOnce(ms)
  {
    hide IsIndex, Owns, Visible, IsFingerprint, Once, FoundOnce;
    NothingFound();
    ms := [];
    var group, wallets := calls[k], Ids(owns, k.1);
    forall c ensures c in group <==> c in edges && c.kind == "CALLED" && (c.srcId, c.dstId) == k {
      InIndex(calls, edges, (e: Edge) => e.kind == "CALLED", (e: Edge) => (e.srcId, e.dstId), k, c);
    }
    if Entry(smses, k) == [] || wallets == [] {
      forall c: Edge, w | (c.srcId, c.dstId) == k ensures !Visible(edges, smsMs, momoMs, c, w) {
        NothingVisible(edges, k, smses, wallets, smsMs, momoMs, c, w);
      }
      return;
    }
    for i := 0 to |group|
      invariant forall m :: m in ms ==> IsFingerprint(edges, smsMs, momoMs, m)
      invariant forall c: Edge, w :: (c, w) in Fingerprinted(ms) <==> c in group[..i] && Visible(edges, smsMs, momoMs, c, w)
      invariant Once(edges) && (forall n :: Once(Ids(owns, n))) ==> FoundOnce(ms)
    {
      assert group[i] in group;
      var found := FingerprintsOfCall(edges, group[i], smses, wallets, sends, smsMs, momoMs);
      assert group[..i + 1] == group[..i] + [group[i]];
      assert Fingerprinted(ms + found) == Fingerprinted(ms) + Fingerprinted(found);
      if Once(edges) && forall n :: Once(Ids(owns, n)) {
        OnceEntry(calls, edges, (e: Edge) => e.kind == "CALLED", (e: Edge) => (e.srcId, e.dstId), k);
        NotBefore(group, i);
        FoundOnceAppend(ms, found);
      }
      ms := ms + found;
    }
    assert group[..|group|] == group;
    forall c: Edge, w | Visible(edges, smsMs, momoMs, c, w) ensures c in edges && c.kind == "CALLED" {
      VisibleIsCall(edges, smsMs, momoMs, c, w);
    }
  }

  lemma VisibleIsCall(edges: seq<Edge>, smsMs: int, momoMs: int, c: Edge, w: string)
    requires Visible(edges, smsMs, momoMs, c, w)
    ensures c in edges && c.kind == "CALLED"
  {
    hide Owns;
  }

  /** Sound, and complete relative to the earliest message after the call.  Without repeated edges nothing is reported
      twice. */
  method DetectVoiceSmsMomo(edges: seq<Edge>, smsMs: int := 3600000, momoMs: int := 86400000) returns (ms: seq<Fingerprint>)
    ensures forall m :: m in ms ==> IsFingerprint(edges, smsMs, momoMs, m)
    ensures forall c: Edge, w :: (c, w) in Fingerprinted(ms) <==> Visible(edges, smsMs, momoMs, c, w)
    ensures Once(edges) && LinkedOnce(edges, "OWNS", "Number", "Wallet") ==> FoundOnce(ms)
  {
    hide IsIndex, Owns, ByTime, Once, FoundOnce, LinkedOnce;
    NothingFound();
    var calls := ByEndpoints(edges, "CALLED");
    var smses := ByEndpoints(edges, "SMSED");
    var owns := OwnedWallets(edges);
    var sends := OutgoingEdges(edges, "SENT", "Wallet", "Wallet");
    ms := [];
    forall c: Edge ensures c in Entry(calls, (c.srcId, c.dstId)) <==> c in edges && c.kind == "CALLED" {
      InIndex(calls, edges, (e: Edge) => e.kind == "CALLED", (e: Edge) => (e.srcId, e.dstId), (c.srcId, c.dstId), c);
    }
    var todo := calls.Keys;
    while todo != {}
      invariant todo <= calls.Keys
      invariant forall m :: m in ms ==> IsFingerprint(edges, smsMs, momoMs, m)
      invariant forall c: Edge, w :: (c, w) in Fingerprinted(ms) <==>
        (c.srcId, c.dstId) !in todo && Visible(edges, smsMs, momoMs, c, w)
      invariant Once(edges) && LinkedOnce(edges, "OWNS", "Number", "Wallet") ==> FoundOnce(ms)
      decreases |todo|
    {
      var k :| k in todo;
      var found := FingerprintsOfGroup(edges, k, calls, smses, owns, sends, smsMs, momoMs);
      assert Fingerprinted(ms + found) == Fingerprinted(ms) + Fingerprinted(found);
      if Once(edges) && LinkedOnce(edges, "OWNS", "Number", "Wallet") { FoundOnceAppend(ms, found); }
      ms := ms + found;
      todo := todo - {k};
    }
  }

  // ---------- The motifs on the fields of the raw edges ----------

  /** The number owns the wallet: an OWNS edge from a Number to a Wallet. */
  lemma OwnsMeans(edges: seq<Edge>, number: string, wallet: string)
    ensures Owns(edges, number, wallet) <==>
      exists e :: e in edges && e.kind == "OWNS" && e.srcKind == "Number" && e.dstKind == "Wallet"
                  && e.srcId == number && e.dstId == wallet
  {
  }

  lemma PaysAfterCallMeans(edges: seq<Edge>, minMs: int, maxMs: int, m: Payment)
    ensures PaysAfterCall(edges, minMs, maxMs, m) <==>
      && m.call in edges && m.call.kind == "CALLED"
      && m.send in edges && m.send.kind == "SENT" && m.send.srcKind == "Wallet" && m.send.dstKind == "Wallet"
      && m.send.srcId == m.wallet
      && Owns(edges, m.call.srcId, m.wallet) && Owns(edges, m.call.dstId, m.send.dstId)
      && m.call.ts + minMs <= m.send.ts <= m.call.ts + maxMs
  {
  }

  lemma QueriesAfterSmsMeans(edges: seq<Edge>, flagged: set<string>, maxMs: int, m: Click)
    ensures QueriesAfterSms(edges, flagged, maxMs, m) <==>
      && m.sms in edges && m.sms.kind == "SMSED"
      && m.query in edges && m.query.kind == "QUERIED" && m.query.srcKind == "Number" && m.query.dstKind == "Domain"
      && m.query.srcId == m.sms.dstId && m.query.dstId in flagged
      && m.sms.ts < m.query.ts <= m.sms.ts + maxMs
  {
  }

  lemma SmsThenSendMeans(edges: seq<Edge>, smsMs: int, momoMs: int, call: Edge, sms: Edge, wallet: string, send: Edge)
    ensures SmsAfterCall(edges, smsMs, call, sms) && SendAfterSms(edges, momoMs, sms, wallet, send) <==>
      && call in edges && call.kind == "CALLED"
      && sms in edges && sms.kind == "SMSED" && sms.srcId == call.srcId && sms.dstId == call.dstId
      && call.ts < sms.ts <= call.ts + smsMs
      && send in edges && send.kind == "SENT" && send.srcKind == "Wallet" && send.dstKind == "Wallet"
      && send.srcId == wallet && Owns(edges, call.dstId, wallet)
      && sms.ts < send.ts <= sms.ts + momoMs
  {
  }
}
