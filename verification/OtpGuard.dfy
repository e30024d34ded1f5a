/** OTP-during-call correlation: an evicting active-call registry, a suppression store, and the runner that
    joins voice and SMS events.  The runner is proved to agree with a rule over the whole event history. */
module OtpGuard {
  import opened Basics

  datatype VoiceKind = CallStart | CallEnd | Registration | Handover

  datatype SmsKind = Mt | Mo | DeliveryReceipt

  datatype Event =
    | Voice(voiceKind: VoiceKind, caller: string, callee: Option<string>, ts: int)
    | Sms(smsKind: SmsKind, tenant: string, recipient: string, isOtp: bool)

  /** An event with the clock reading, in milliseconds, at which it was handled. */
  datatype Handled = Handled(event: Event, now: int)

  datatype ActiveCall = ActiveCall(caller: string, startedAt: int)

  datatype Signal = Signal(tenant: string, recipient: string, caller: string)

  // ---------- The rule over the history ----------

  ghost predicate Nondecreasing(h: seq<Handled>) {
    forall i, j :: 0 <= i < j < |h| ==> h[i].now <= h[j].now
  }

  /** The call msisdn is in according to its latest call_start or call_end event. */
  function LatestCall(h: seq<Handled>, msisdn: string): Option<ActiveCall> {
    if h == [] then None
    else match h[|h| - 1].event
      case Voice(CallStart, caller, Some(m), ts) =>
        if m == msisdn then Some(ActiveCall(caller, ts)) else LatestCall(h[..|h| - 1], msisdn)
      case Voice(CallEnd, _, Some(m), _) =>
        if m == msisdn then None else LatestCall(h[..|h| - 1], msisdn)
      case _ => LatestCall(h[..|h| - 1], msisdn)
  }

  predicate IsOtpFor(e: Event, tenant: string, recipient: string) {
    e.Sms? && e.smsKind == Mt && e.isOtp && e.tenant == tenant && e.recipient == recipient
  }

  /** The recipient has a call that started at most ttl ago. */
  predicate CallActive(h: seq<Handled>, recipient: string, now: int, ttl: int) {
    var c := LatestCall(h, recipient);
    c.Some? && now - c.value.startedAt <= ttl
  }

  /** The last event of the history is an OTP message that raises a signal. */
  predicate Raises(h: seq<Handled>, ttl: int, window: int)
    decreases |h|, 1
  {
    && h != []
    && var past, e, now := h[..|h| - 1], h[|h| - 1].event, h[|h| - 1].now;
       && e.Sms? && IsOtpFor(e, e.tenant, e.recipient)
       && CallActive(past, e.recipient, now, ttl)
       && var last := LastRaised(past, e.tenant, e.recipient, ttl, window);
          last.None? || now - last.value >= window
  }

  /** When a signal for this tenant and recipient was last raised. */
  function LastRaised(h: seq<Handled>, tenant: string, recipient: string, ttl: int, window: int): Option<int>
    decreases |h|, 2
  {
    if h == [] then None
    else if IsOtpFor(h[|h| - 1].event, tenant, recipient) && Raises(h, ttl, window) then Some(h[|h| - 1].now)
    else LastRaised(h[..|h| - 1], tenant, recipient, ttl, window)
  }

  ghost predicate NoneRaisedWithin(h: seq<Handled>, n: nat, tenant: string, recipient: string, now: int, ttl: int, window: int)
    requires n <= |h|
  {
    forall j :: 0 <= j < n && IsOtpFor(h[j].event, tenant, recipient) && Raises(h[..j + 1], ttl, window) ==>
      now - h[j].now >= window
  }

  lemma {:induction false} LastRaisedCovers(h: seq<Handled>, n: nat, tenant: string, recipient: string, now: int, ttl: int, window: int)
    requires n <= |h| && Nondecreasing(h) && (n > 0 ==> h[n - 1].now <= now)
    ensures var last := LastRaised(h[..n], tenant, recipient, ttl, window);
      (last.None? || now - last.value >= window) <==> NoneRaisedWithin(h, n, tenant, recipient, now, ttl, window)
  {
    if n > 0 {
      assert h[..n][..n - 1] == h[..n - 1];
      LastRaisedCovers(h, n - 1, tenant, recipient, now, ttl, window);
      if IsOtpFor(h[n - 1].event, tenant, recipient) && Raises(h[..n], ttl, window) {
        assert NoneRaisedWithin(h, n, tenant, recipient, now, ttl, window) ==> now - h[n - 1].now >= window;
      }
    }
  }

  /** With a clock that never steps back: a signal is raised exactly for an OTP message whose recipient is in a
      call no older than the TTL, when no signal for that tenant and recipient was raised within the window. */
  lemma RaisesIff(h: seq<Handled>, ttl: int, window: int)
    requires h != [] && Nondecreasing(h)
    ensures var n := |h| - 1; var e := h[n].event;
      Raises(h, ttl, window) <==>
        && e.Sms? && e.smsKind == Mt && e.isOtp
        && CallActive(h[..n], e.recipient, h[n].now, ttl)
        && NoneRaisedWithin(h, n, e.tenant, e.recipient, h[n].now, ttl, window)
  {
    var n := |h| - 1;
    if h[n].event.Sms? {
      LastRaisedCovers(h, n, h[n].event.tenant, h[n].event.recipient, h[n].now, ttl, window);
    }
  }

  /** How handling one SMS moves the rule along. */
  lemma SmsStep(h: seq<Handled>, e: Event, now: int, ttl: int, window: int)
    requires e.Sms?
    ensures var h' := h + [Handled(e, now)];
      && (forall m :: LatestCall(h', m) == LatestCall(h, m))
      && (forall t, r :: LastRaised(h', t, r, ttl, window) ==
            if Raises(h', ttl, window) && t == e.tenant && r == e.recipient then Some(now)
            else LastRaised(h, t, r, ttl, window))
      && (Raises(h', ttl, window) <==>
            && e.smsKind == Mt && e.isOtp && CallActive(h, e.recipient, now, ttl)
            && (LastRaised(h, e.tenant, e.recipient, ttl, window).None?
                || now - LastRaised(h, e.tenant, e.recipient, ttl, window).value >= window))
  {
    assert (h + [Handled(e, now)])[..|h|] == h;
  }

  /** How handling one voice event moves the rule along. */
  lemma VoiceStep(h: seq<Handled>, e: Event, now: int, ttl: int, window: int)
    requires e.Voice?
    ensures var h' := h + [Handled(e, now)];
      && (forall t, r :: LastRaised(h', t, r, ttl, window) == LastRaised(h, t, r, ttl, window))
      && (forall m :: LatestCall(h', m) ==
            if e.callee != Some(m) then LatestCall(h, m)
            else if e.voiceKind == CallStart then Some(ActiveCall(e.caller, e.ts))
            else if e.voiceKind == CallEnd then None
            else LatestCall(h, m))
  {
    assert (h + [Handled(e, now)])[..|h|] == h;
  }

  // ---------- Suppression keys ----------

  const SIGNAL_KIND := "otp.during_call"

  /** Canonical E.164: a plus sign and digits. */
  predicate IsMsisdn(s: string) {
    |s| > 0 && s[0] == '+' && forall i :: 1 <= i < |s| ==> '0' <= s[i] <= '9'
  }

  function SuppressionKey(tenant: string, recipient: string): string {
    tenant + ":number:" + recipient + (":" + SIGNAL_KIND)
  }

  /** Keys of different tenants or recipients differ, even when tenant names contain colons. */
  lemma KeyIsInjective(t: string, r: string, t': string, r': string)
    requires IsMsisdn(r) && IsMsisdn(r') && SuppressionKey(t, r) == SuppressionKey(t', r')
    ensures t == t' && r == r'
  {
    var tail := ":" + SIGNAL_KIND;
    var a, b := t + ":number:" + r, t' + ":number:" + r';
    assert SuppressionKey(t, r) == a + tail && SuppressionKey(t', r') == b + tail;
    assert |a| == |b|;
    assert a == (a + tail)[..|a|] == (b + tail)[..|b|] == b;
    LastColon(t, r);
    LastColon(t', r');
    assert |t| == |t'|;
    assert t == a[..|t|] && t' == b[..|t'|];
    assert r == a[|t| + 8..] && r' == b[|t'| + 8..];
  }

  lemma LastColon(t: string, r: string)
    requires IsMsisdn(r)
    ensures var a := t + ":number:" + r;
      |a| == |t| + 8 + |r| && a[|t| + 7] == ':' && forall i :: |t| + 8 <= i < |a| ==> a[i] != ':'
  {
    var a := t + ":number:" + r;
    assert forall i :: |t| + 8 <= i < |a| ==> a[i] == r[i - |t| - 8];
  }

  // ---------- The stores ----------

  class ActiveCallRegistry {
    const ttl: int
    var calls: map<string, ActiveCall>
    /** calls started and not ended, whether or not the registry has evicted them */
    ghost var openCalls: map<string, ActiveCall>
    ghost var clock: int

    /** Only calls that are already too old, and will stay too old, have been evicted. */
    ghost predicate Valid()
      reads this
    {
      && (forall m :: m in calls ==> m in openCalls && calls[m] == openCalls[m])
      && (forall m :: m in openCalls && m !in calls ==> clock - openCalls[m].startedAt > ttl)
    }

    constructor (ttlS: int, now: int)
      ensures Valid() && openCalls == map[] && clock == now && ttl == ttlS * 1000
    {
      ttl := ttlS * 1000;
      calls, openCalls, clock := map[], map[], now;
    }

    method Start(callee: string, call: ActiveCall)
      requires Valid()
      modifies this`calls, this`openCalls
      ensures Valid() && openCalls == old(openCalls)[callee := call]
    {
      calls := calls[callee := call];
      openCalls := openCalls[callee := call];
    }

    method End(callee: string)
      requires Valid()
      modifies this`calls, this`openCalls
      ensures Valid() && openCalls == old(openCalls) - {callee}
    {
      calls := calls - {callee};
      openCalls := openCalls - {callee};
    }

    /** Eviction on read is invisible: the answer depends only on the open calls and the clock. */
    method Get(callee: string, now: int) returns (r: Option<ActiveCall>)
      requires Valid() && clock <= now
      modifies this`calls, this`clock
      ensures Valid() && clock == now
      ensures r == if callee in openCalls && now - openCalls[callee].startedAt <= ttl then Some(openCalls[callee]) else None
    {
      clock := now;
      if callee !in calls { return None; }
      var c := calls[callee];
      if now - c.startedAt > ttl {
        calls := calls - {callee};
        return None;
      }
      return Some(c);
    }
  }

  class SuppressionStore {
    const window: int
    var seen: map<string, int>

    constructor (windowS: int)
      ensures seen == map[] && window == windowS * 1000
    {
      window := windowS * 1000;
      seen := map[];
    }

    method ShouldSuppress(key: string, now: int) returns (suppress: bool)
      modifies this
      ensures suppress <==> key in old(seen) && now - old(seen[key]) < window
      ensures seen == if suppress then old(seen) else old(seen)[key := now]
    {
      if key in seen && now - seen[key] < window { return true; }
      seen := seen[key := now];
      return false;
    }
  }

  // ---------- The runner ----------

  /** The open calls are the latest calls of the history. */
  ghost predicate CallsMatch(open: map<string, ActiveCall>, h: seq<Handled>) {
    forall m :: LatestCall(h, m) == if m in open then Some(open[m]) else None
  }

  function SeenAt(seen: map<string, int>, key: string): Option<int> {
    if key in seen then Some(seen[key]) else None
  }

  /** The store remembers, for every tenant and recipient, when the history last raised a signal. */
  ghost predicate SeenMatches(seen: map<string, int>, h: seq<Handled>, ttl: int, window: int) {
    forall t, r :: IsMsisdn(r) ==> SeenAt(seen, SuppressionKey(t, r)) == LastRaised(h, t, r, ttl, window)
  }

  /** Handling an SMS leaves the calls alone and changes at most the time under its own key. */
  lemma SmsKeeps(h: seq<Handled>, e: Event, now: int, open: map<string, ActiveCall>, seen: map<string, int>,
                 ttl: int, window: int)
    requires e.Sms? && IsMsisdn(e.recipient) && CallsMatch(open, h) && SeenMatches(seen, h, ttl, window)
    ensures var key := SuppressionKey(e.tenant, e.recipient); var h' := h + [Handled(e, now)];
      && CallsMatch(open, h')
      && LatestCall(h, e.recipient) == (if e.recipient in open then Some(open[e.recipient]) else None)
      && (Raises(h', ttl, window) <==>
            && e.smsKind == Mt && e.isOtp && CallActive(h, e.recipient, now, ttl)
            && !(key in seen && now - seen[key] < window))
      && SeenMatches(if Raises(h', ttl, window) then seen[key := now] else seen, h', ttl, window)
  {
    hide LatestCall, LastRaised, Raises, SuppressionKey, IsMsisdn, CallActive;
    SmsStep(h, e, now, ttl, window);
    var key := SuppressionKey(e.tenant, e.recipient);
    assert SeenAt(seen, key) == LastRaised(h, e.tenant, e.recipient, ttl, window);
    forall t, r | IsMsisdn(r) && SuppressionKey(t, r) == key ensures t == e.tenant && r == e.recipient {
      KeyIsInjective(t, r, e.tenant, e.recipient);
    }
  }

  /** Handling a voice event touches only the callee's call. */
  lemma VoiceKeeps(h: seq<Handled>, e: Event, now: int, open: map<string, ActiveCall>, seen: map<string, int>,
                   ttl: int, window: int)
    requires e.Voice? && CallsMatch(open, h) && SeenMatches(seen, h, ttl, window)
    ensures var h' := h + [Handled(e, now)];
      && SeenMatches(seen, h', ttl, window)
      && CallsMatch(
           if e.callee.None? then open
           else if e.voiceKind == CallStart then open[e.callee.value := ActiveCall(e.caller, e.ts)]
           else if e.voiceKind == CallEnd then open - {e.callee.value}
           else open, h')
  {
    hide LatestCall, LastRaised, SuppressionKey, IsMsisdn;
    VoiceStep(h, e, now, ttl, window);
  }

  class OtpGuardRunner {
    const registry: ActiveCallRegistry
    const suppression: SuppressionStore
    var signals: seq<Signal>
    ghost var history: seq<Handled>

    ghost predicate Valid()
      reads this, registry, suppression
    {
      && registry.Valid()
      && Nondecreasing(history)
      && (history != [] ==> registry.clock <= history[|history| - 1].now)
      && CallsMatch(registry.openCalls, history)
      && SeenMatches(suppression.seen, history, registry.ttl, suppression.window)
    }

    /** Clock readings never decrease. */
    ghost predicate ClockAllows(now: int)
      reads this, registry
    {
      registry.clock <= now && (history != [] ==> history[|history| - 1].now <= now)
    }

    constructor (ttlS: int, windowS: int, now: int)
      ensures Valid() && fresh(registry) && fresh(suppression) && history == [] && signals == [] && ClockAllows(now)
    {
      registry := new ActiveCallRegistry(ttlS, now);
      suppression := new SuppressionStore(windowS);
      signals, history := [], [];
    }

    method OnVoice(kind: VoiceKind, caller: string, callee: Option<string>, ts: int, now: int)
      requires Valid() && ClockAllows(now)
      modifies this`history, registry
      ensures Valid() && registry.clock == old(registry.clock)
      ensures history == old(history) + [Handled(Voice(kind, caller, callee, ts), now)]
    {
      hide CallsMatch, SeenMatches;
      VoiceKeeps(history, Voice(kind, caller, callee, ts), now, registry.openCalls, suppression.seen,
                 registry.ttl, suppression.window);
      history := history + [Handled(Voice(kind, caller, callee, ts), now)];
      if callee.None? { return; }
      if kind == CallStart {
        registry.Start(callee.value, ActiveCall(caller, ts));
      } else if kind == CallEnd {
        registry.End(callee.value);
      }
    }

    /** A signal is raised exactly when the rule over the history says so.  It is emitted if, moreover, the
        producer accepts it; a failed send still counts as raised for the suppression window. */
    method OnSms(kind: SmsKind, tenant: string, recipient: string, isOtp: bool, now: int, sendSucceeds: bool)
      returns (raised: bool)
      requires Valid() && ClockAllows(now) && IsMsisdn(recipient)
      modifies this, registry, suppression
      ensures Valid()
      ensures history == old(history) + [Handled(Sms(kind, tenant, recipient, isOtp), now)]
      ensures raised <==> Raises(history, registry.ttl, suppression.window)
      ensures signals == old(signals) + if raised && sendSucceeds
        then [Signal(tenant, recipient, LatestCall(old(history), recipient).value.caller)] else []
    {
      hide LatestCall, Raises, SuppressionKey, IsMsisdn, CallsMatch, SeenMatches;
      SmsKeeps(history, Sms(kind, tenant, recipient, isOtp), now, registry.openCalls, suppression.seen,
               registry.ttl, suppression.window);
      history := history + [Handled(Sms(kind, tenant, recipient, isOtp), now)];
      raised := false;
      if kind != Mt { return; }
      var activeCall: Option<ActiveCall> := None;
      if isOtp {
        activeCall := registry.Get(recipient, now);
      }
      if !isOtp || activeCall.None? { return; }
      var key := SuppressionKey(tenant, recipient);
      var suppress := suppression.ShouldSuppress(key, now);
      if suppress { return; }
      raised := true;
      if sendSucceeds {
        signals := signals + [Signal(tenant, recipient, activeCall.value.caller)];
      }
    }
  }
}
