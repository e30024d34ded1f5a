/** The policy that ships with the decision service, and which events its strictest rules decide. */
module DefaultPolicy {
  import opened Basics
  import opened DecisionPolicy

  const ANY := Match(None, None, None, None, None, [])

  function OfKind(kind: string, severities: seq<Severity>): Match {
    ANY.(signalKind := Some(kind), severityIn := if severities == [] then None else Some(severities))
  }

  const VERIFIED := Rule(
    "verified-business-suppress", ANY.(evidenceTruthy := ["verified_business"]), "investigation.queue", Tier3Investigation, 86400)

  const AML := "aml.watchlist_match"
  const AML_CRITICAL := Rule("aml-watchlist-tier1-critical", OfKind(AML, [Critical]), "momo.freeze_account", Tier1Inline, 86400)
  const AML_HIGH := Rule("aml-watchlist-tier1-high", OfKind(AML, [High]), "momo.send_with_care", Tier1Inline, 86400)
  const AML_OTHER := Rule("aml-watchlist-tier3", OfKind(AML, [Medium, Low]), "investigation.queue", Tier3Investigation, 86400)

  const MOTIF := Rule(
    "voice-sms-momo-24h-motif-tier1", ANY.(motif := Some("voice_sms_momo_24h"), scoreGte := Some(0.7)),
    "investigation.escalate", Tier1Inline, 3600)

  const SIGNAL_RULES := [
    Rule("voice-velocity-burst-tier1", OfKind("voice.velocity_burst", [Critical, High]), "volte.tag_suspected_spam", Tier1Inline, 21600),
    Rule("sms-known-bad-body-tier1", OfKind("sms.known_bad_body", []), "sms.block", Tier1Inline, 86400),
    Rule("sms-malicious-url-tier1", OfKind("sms.malicious_url", [Critical, High]), "url.block", Tier1Inline, 21600),
    Rule("momo-mule-friction-tier1", OfKind("momo.mule_velocity", [Critical, High]), "momo.send_with_care", Tier1Inline, 3600),
    Rule("otp-during-call-tier1", OfKind("otp.during_call", [Critical, High]), "otp.hold_and_alert", Tier1Inline, 300)]

  const NRT_RULES := [
    Rule("sms-template-smishing-tier2", OfKind("sms.template_smishing", []), "customer.alert_smishing", Tier2Nrt, 21600),
    Rule("device-imei-churn-tier2", OfKind("device.imei_churn", []), "customer.do_i_know_you_prompt", Tier2Nrt, 86400),
    Rule("momo-high-value-velocity-tier2", OfKind("momo.high_value_velocity", []), "momo.review_limit", Tier2Nrt, 14400),
    Rule("sms-known-bad-template-tier2", OfKind("sms.known_bad_template", []), "customer.alert_smishing", Tier2Nrt, 21600)]

  const LATER_RULES := SIGNAL_RULES + [MOTIF] + NRT_RULES

  const DEFAULT_POLICY := Policy(
    "default", "2026-05-08-1", [VERIFIED, AML_CRITICAL, AML_HIGH, AML_OTHER] + LATER_RULES,
    Default("investigation.queue", Tier3Investigation, 0))

  lemma FirstRules()
    ensures var r := DEFAULT_POLICY.rules;
      && |r| == 4 + |LATER_RULES| && r[0] == VERIFIED && r[1] == AML_CRITICAL && r[2] == AML_HIGH && r[3] == AML_OTHER
      && forall k :: 4 <= k < |r| ==> r[k] == LATER_RULES[k - 4]
  {
  }

  /** None of the later rules is for watchlist matches, or has an id that starts like those of the watchlist rules. */
  lemma LaterRulesAreOthers()
    ensures forall k :: 0 <= k < |LATER_RULES| ==>
      && LATER_RULES[k].id[0] != 'a' && LATER_RULES[k].guard.signalKind != Some(AML)
      && (LATER_RULES[k].guard.motif.Some? || LATER_RULES[k].guard.signalKind.Some?)
  {
  }

  /** What the first four guards reject. */
  lemma GuardsReject(s: SignalEvent)
    ensures RejectsSignal(VERIFIED.guard, s) <==> "verified_business" !in s.evidence
    ensures RejectsSignal(AML_CRITICAL.guard, s) <==> s.kind != AML || s.severity != Critical
    ensures RejectsSignal(AML_HIGH.guard, s) <==> s.kind != AML || s.severity != High
    ensures RejectsSignal(AML_OTHER.guard, s) <==> s.kind != AML || s.severity !in {Medium, Low}
  {
    assert VERIFIED.guard.evidenceTruthy[0] == "verified_business";
  }

  /** A watchlist match is decided by its severity alone, unless the business is verified. */
  lemma WatchlistMatchesAreDecided(s: SignalEvent)
    requires s.kind == AML
    ensures EvaluateSignal(DEFAULT_POLICY, s) ==
      if "verified_business" in s.evidence then OfRule(VERIFIED)
      else match s.severity
        case Critical => OfRule(AML_CRITICAL)
        case High => OfRule(AML_HIGH)
        case Medium => OfRule(AML_OTHER)
        case Low => OfRule(AML_OTHER)
  {
    FirstRules();
    GuardsReject(s);
    var i :=
      if "verified_business" in s.evidence then 0
      else if s.severity == Critical then 1 else if s.severity == High then 2 else 3;
    hide DEFAULT_POLICY, LATER_RULES, RejectsSignal, VERIFIED, AML_CRITICAL, AML_HIGH, AML_OTHER, EvaluateSignal;
    var r := DEFAULT_POLICY.rules;
    assert forall k :: 0 <= k < i ==> r[k] == r[0] || r[k] == r[1] || r[k] == r[2];
    FirstAcceptedDecides(DEFAULT_POLICY, s, i);
  }

  lemma IdsOfFirstRules()
    ensures VERIFIED.id[0] == 'v' && DEFAULT_POLICY.default == Default("investigation.queue", Tier3Investigation, 0)
    ensures |AML_CRITICAL.id| == 28 && |AML_HIGH.id| == 24 && |AML_OTHER.id| == 19
    ensures AML_CRITICAL.id[0] == AML_HIGH.id[0] == AML_OTHER.id[0] == 'a'
  {
  }

  /** The freeze and the friction rule decide exactly the signals of their own severity. */
  lemma WatchlistRulesDecideExactly(s: SignalEvent)
    ensures EvaluateSignal(DEFAULT_POLICY, s) == OfRule(AML_CRITICAL) <==>
      s.kind == AML && s.severity == Critical && "verified_business" !in s.evidence
    ensures EvaluateSignal(DEFAULT_POLICY, s) == OfRule(AML_HIGH) <==>
      s.kind == AML && s.severity == High && "verified_business" !in s.evidence
  {
    FirstRules();
    LaterRulesAreOthers();
    IdsOfFirstRules();
    GuardsReject(s);
    if s.kind == AML { WatchlistMatchesAreDecided(s); }
    SignalIsDecided(DEFAULT_POLICY, s);
    hide DEFAULT_POLICY, LATER_RULES, RejectsSignal, VERIFIED, AML_CRITICAL, AML_HIGH, AML_OTHER, EvaluateSignal;
  }

  lemma GuardsRejectMotif(m: MotifEvent)
    ensures forall k :: 0 <= k < 4 ==> RejectsMotif(DEFAULT_POLICY.rules[k].guard, m)
    ensures forall k :: 0 <= k < |LATER_RULES| && k != 5 ==> RejectsMotif(LATER_RULES[k].guard, m)
    ensures |LATER_RULES| == 10 && LATER_RULES[5] == MOTIF
    ensures RejectsMotif(MOTIF.guard, m) <==>
      m.motif != "voice_sms_momo_24h" || m.score.None? || m.score.value < 0.7
  {
  }

  /** The only motif with a rule of its own is escalated from a score of 0.7 on; every other motif is queued. */
  lemma MotifsAreDecided(m: MotifEvent)
    ensures EvaluateMotif(DEFAULT_POLICY, m) ==
      if m.motif == "voice_sms_momo_24h" && m.score.Some? && m.score.value >= 0.7 then OfRule(MOTIF)
      else OfDefault(DEFAULT_POLICY.default)
  {
    FirstRules();
    GuardsRejectMotif(m);
    MotifIsDecided(DEFAULT_POLICY, m);
    hide DEFAULT_POLICY, LATER_RULES, RejectsMotif, MOTIF, EvaluateMotif;
    var r := DEFAULT_POLICY.rules;
    assert forall k :: 0 <= k < |r| && k != 9 ==> RejectsMotif(r[k].guard, m);
    assert r[9] == MOTIF;
  }
}
