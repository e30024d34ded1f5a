/** Decision policies: first-match evaluation of signals and motifs, and validation. */
module DecisionPolicy {
  import opened Basics

  datatype Severity = Critical | High | Medium | Low

  datatype Tier = Tier1Inline | Tier2Nrt | Tier3Investigation

  /** evidence holds the names of the truthy evidence entries. */
  datatype SignalEvent = SignalEvent(
    eventId: string, tenant: string, kind: string, severity: Severity, score: real,
    subjectKind: string, subjectId: string, evidence: set<string>, suppressionKey: Option<string>)

  datatype MotifEvent = MotifEvent(
    eventId: string, tenant: string, motif: string, score: Option<real>, members: seq<string>)

  datatype Match = Match(
    signalKind: Option<string>, motif: Option<string>, severityIn: Option<seq<Severity>>,
    scoreGte: Option<real>, subjectKind: Option<string>, evidenceTruthy: seq<string>)
  {
    predicate MatchesSignal(s: SignalEvent) {
      && motif.None?
      && (signalKind.Some? ==> s.kind == signalKind.value)
      && (severityIn.Some? ==> s.severity in severityIn.value)
      && (scoreGte.Some? ==> s.score >= scoreGte.value)
      && (subjectKind.Some? ==> s.subjectKind == subjectKind.value)
      && forall k :: k in evidenceTruthy ==> k in s.evidence
    }

    predicate MatchesMotif(m: MotifEvent) {
      && signalKind.None?
      && (motif.Some? ==> m.motif == motif.value)
      && (scoreGte.Some? ==> m.score.Some? && m.score.value >= scoreGte.value)
      && evidenceTruthy == []
    }
  }

  datatype Rule = Rule(id: string, guard: Match, action: string, tier: Tier, window: int)

  datatype Default = Default(action: string, tier: Tier, window: int)

  datatype Policy = Policy(id: string, version: string, rules: seq<Rule>, default: Default)

  datatype Outcome = Outcome(ruleId: string, action: string, tier: Tier, window: int)

  function OfRule(r: Rule): Outcome { Outcome(r.id, r.action, r.tier, r.window) }

  function OfDefault(d: Default): Outcome { Outcome("__default__", d.action, d.tier, d.window) }

  /** An outcome says what the rule or the default says. */
  lemma OutcomeMeans(r: Rule, d: Default)
    ensures var o := OfRule(r); o.ruleId == r.id && o.action == r.action && o.tier == r.tier && o.window == r.window
    ensures var o := OfDefault(d);
      o.ruleId == "__default__" && o.action == d.action && o.tier == d.tier && o.window == d.window
  {
  }

  /** Rule i is the first that matches. */
  ghost predicate FirstMatch(rules: seq<Rule>, matches: Rule -> bool, i: nat) {
    && i < |rules| && matches(rules[i])
    && forall k :: 0 <= k < i ==> !matches(rules[k])
  }

  ghost predicate NoMatch(rules: seq<Rule>, matches: Rule -> bool) {
    forall k :: 0 <= k < |rules| ==> !matches(rules[k])
  }

  /** The scan over the rules: effect of the first match, else the default. */
  method Scan(p: Policy, matches: Rule -> bool) returns (o: Outcome)
    ensures o == Evaluate(p, matches)
  {
    for i := 0 to |p.rules|
      invariant forall k :: 0 <= k < i ==> !matches(p.rules[k])
    {
      if matches(p.rules[i]) {
        EvaluateMeaning(p, matches);
        return OfRule(p.rules[i]);
      }
    }
    EvaluateMeaning(p, matches);
    return OfDefault(p.default);
  }

  function Evaluate(p: Policy, matches: Rule -> bool): Outcome
    decreases |p.rules|
  {
    if p.rules == [] then OfDefault(p.default)
    else if matches(p.rules[0]) then OfRule(p.rules[0])
    else Evaluate(p.(rules := p.rules[1..]), matches)
  }

  /** The outcome is the first matching rule's, or the default's when no rule matches. */
  lemma {:induction false} EvaluateMeaning(p: Policy, matches: Rule -> bool)
    ensures forall i: nat :: FirstMatch(p.rules, matches, i) ==> Evaluate(p, matches) == OfRule(p.rules[i])
    ensures NoMatch(p.rules, matches) ==> Evaluate(p, matches) == OfDefault(p.default)
    ensures NoMatch(p.rules, matches) || exists i: nat :: FirstMatch(p.rules, matches, i)
    decreases |p.rules|
  {
    if p.rules != [] {
      var rest := p.(rules := p.rules[1..]);
      EvaluateMeaning(rest, matches);
      assert !matches(p.rules[0]) ==> Evaluate(p, matches) == Evaluate(rest, matches);
      hide Evaluate;
      if matches(p.rules[0]) {
        assert FirstMatch(p.rules, matches, 0);
      } else {
        forall i: nat | FirstMatch(p.rules, matches, i) ensures Evaluate(p, matches) == OfRule(p.rules[i]) {
          assert rest.rules[i - 1] == p.rules[i];
          assert FirstMatch(rest.rules, matches, i - 1);
        }
        if !NoMatch(rest.rules, matches) {
          var j: nat :| FirstMatch(rest.rules, matches, j);
          assert rest.rules[j] == p.rules[j + 1];
          assert FirstMatch(p.rules, matches, j + 1);
        }
      }
    }
  }

  function EvaluateSignal(p: Policy, s: SignalEvent): Outcome {
    Evaluate(p, (r: Rule) => r.guard.MatchesSignal(s))
  }

  function EvaluateMotif(p: Policy, m: MotifEvent): Outcome {
    Evaluate(p, (r: Rule) => r.guard.MatchesMotif(m))
  }

  // ---------- Deciding, in terms of the event's fields ----------

  /** Something the guard asks for is not true of the signal, or the guard is for motifs. */
  ghost predicate RejectsSignal(g: Match, s: SignalEvent) {
    || g.motif.Some?
    || (g.signalKind.Some? && g.signalKind.value != s.kind)
    || (g.severityIn.Some? && s.severity !in g.severityIn.value)
    || (g.scoreGte.Some? && s.score < g.scoreGte.value)
    || (g.subjectKind.Some? && g.subjectKind.value != s.subjectKind)
    || exists k :: k in g.evidenceTruthy && k !in s.evidence
  }

  /** Something the guard asks for is not true of the motif, or it asks for what only signals have. */
  ghost predicate RejectsMotif(g: Match, m: MotifEvent) {
    || g.signalKind.Some?
    || g.evidenceTruthy != []
    || (g.motif.Some? && g.motif.value != m.motif)
    || (g.scoreGte.Some? && (m.score.None? || m.score.value < g.scoreGte.value))
  }

  /** The deciding rule accepts the signal and every rule before it rejects it; the default decides when all do. */
  lemma SignalIsDecided(p: Policy, s: SignalEvent)
    ensures var o := EvaluateSignal(p, s);
      || (exists i: nat :: i < |p.rules| && o == OfRule(p.rules[i]) && !RejectsSignal(p.rules[i].guard, s)
                        && forall k :: 0 <= k < i ==> RejectsSignal(p.rules[k].guard, s))
      || (o == OfDefault(p.default) && forall k :: 0 <= k < |p.rules| ==> RejectsSignal(p.rules[k].guard, s))
  {
    hide Evaluate;
    var matches := (r: Rule) => r.guard.MatchesSignal(s);
    EvaluateMeaning(p, matches);
    forall k | 0 <= k < |p.rules| ensures matches(p.rules[k]) <==> !RejectsSignal(p.rules[k].guard, s) {}
    if i: nat :| FirstMatch(p.rules, matches, i) {
      assert EvaluateSignal(p, s) == OfRule(p.rules[i]);
    }
  }

  lemma FirstAcceptedDecides(p: Policy, s: SignalEvent, i: nat)
    requires i < |p.rules| && !RejectsSignal(p.rules[i].guard, s) && forall k :: 0 <= k < i ==> RejectsSignal(p.rules[k].guard, s)
    ensures EvaluateSignal(p, s) == OfRule(p.rules[i])
  {
    hide Evaluate;
    var matches := (r: Rule) => r.guard.MatchesSignal(s);
    EvaluateMeaning(p, matches);
    forall k | 0 <= k <= i ensures matches(p.rules[k]) <==> !RejectsSignal(p.rules[k].guard, s) {}
    assert FirstMatch(p.rules, matches, i);
  }

  lemma MotifIsDecided(p: Policy, m: MotifEvent)
    ensures var o := EvaluateMotif(p, m);
      || (exists i: nat :: i < |p.rules| && o == OfRule(p.rules[i]) && !RejectsMotif(p.rules[i].guard, m)
                        && forall k :: 0 <= k < i ==> RejectsMotif(p.rules[k].guard, m))
      || (o == OfDefault(p.default) && forall k :: 0 <= k < |p.rules| ==> RejectsMotif(p.rules[k].guard, m))
  {
    hide Evaluate;
    var matches := (r: Rule) => r.guard.MatchesMotif(m);
    EvaluateMeaning(p, matches);
    forall k | 0 <= k < |p.rules| ensures matches(p.rules[k]) <==> !RejectsMotif(p.rules[k].guard, m) {}
    if i: nat :| FirstMatch(p.rules, matches, i) {
      assert EvaluateMotif(p, m) == OfRule(p.rules[i]);
    }
  }

  /** Severity and subject predicates of a rule have no influence on motif events. */
  lemma {:induction false} MotifsIgnoreSeverityAndSubject(p: Policy, q: Policy, m: MotifEvent)
    requires p.default == q.default && |p.rules| == |q.rules|
    requires forall i :: 0 <= i < |p.rules| ==>
      q.rules[i] == p.rules[i].(guard := p.rules[i].guard.(
        severityIn := q.rules[i].guard.severityIn, subjectKind := q.rules[i].guard.subjectKind))
    ensures EvaluateMotif(p, m) == EvaluateMotif(q, m)
    decreases |p.rules|
  {
    if p.rules != [] && !p.rules[0].guard.MatchesMotif(m) {
      MotifsIgnoreSeverityAndSubject(p.(rules := p.rules[1..]), q.(rules := q.rules[1..]), m);
    }
  }

  // ---------- Validation ----------

  ghost predicate ValidPolicy(p: Policy) {
    && p.id != "" && p.version != ""
    && (forall i :: 0 <= i < |p.rules| ==> p.rules[i].id != "" && p.rules[i].action != "" && p.rules[i].window >= 0)
    && (forall i, j :: 0 <= i < j < |p.rules| ==> p.rules[i].id != p.rules[j].id)
  }

  method Validate(p: Policy) returns (ok: bool)
    ensures ok <==> ValidPolicy(p)
  {
    if p.id == "" || p.version == "" { return false; }
    var seen: set<string> := {};
    for i := 0 to |p.rules|
      invariant seen == set k | 0 <= k < i :: p.rules[k].id
      invariant forall k :: 0 <= k < i ==> p.rules[k].id != "" && p.rules[k].action != "" && p.rules[k].window >= 0
      invariant forall j, k :: 0 <= j < k < i ==> p.rules[j].id != p.rules[k].id
    {
      if p.rules[i].id == "" || p.rules[i].id in seen || p.rules[i].action == "" || p.rules[i].window < 0 {
        return false;
      }
      seen := seen + {p.rules[i].id};
    }
    return true;
  }

  // ---------- Fingerprints ----------

  /** What the fingerprint hashes of a rule: not its match predicates. */
  datatype RuleLine = RuleLine(id: string, action: string, tier: Tier, window: int)

  function Lines(rules: seq<Rule>): seq<RuleLine> {
    seq(|rules|, i requires 0 <= i < |rules| => RuleLine(rules[i].id, rules[i].action, rules[i].tier, rules[i].window))
  }

  function Fingerprint(p: Policy, hash: seq<RuleLine> -> string): string { hash(Lines(p.rules)) }

  /** With a hash without collisions two policies share a fingerprint exactly when their rules agree, one by one, in id,
      action, tier and window. */
  lemma FingerprintsAgreeIff(p: Policy, q: Policy, hash: seq<RuleLine> -> string)
    requires forall a, b :: hash(a) == hash(b) ==> a == b
    ensures Fingerprint(p, hash) == Fingerprint(q, hash) <==>
      && |p.rules| == |q.rules|
      && forall i :: 0 <= i < |p.rules| ==>
           p.rules[i].id == q.rules[i].id && p.rules[i].action == q.rules[i].action
           && p.rules[i].tier == q.rules[i].tier && p.rules[i].window == q.rules[i].window
  {
    var a, b := Lines(p.rules), Lines(q.rules);
    if a == b {
      assert |a| == |b|;
      forall i | 0 <= i < |p.rules|
        ensures p.rules[i].id == q.rules[i].id && p.rules[i].action == q.rules[i].action
        ensures p.rules[i].tier == q.rules[i].tier && p.rules[i].window == q.rules[i].window
      {
        assert a[i] == b[i];
      }
    } else if |a| == |b| {
      var i :| 0 <= i < |a| && a[i] != b[i];
    }
  }

  /** Editing match predicates, the default, the id or the version leaves the fingerprint as it is. */
  lemma FingerprintIgnoresMatches(p: Policy, q: Policy, hash: seq<RuleLine> -> string)
    requires |p.rules| == |q.rules|
    requires forall i :: 0 <= i < |p.rules| ==> q.rules[i] == p.rules[i].(guard := q.rules[i].guard)
    ensures Fingerprint(p, hash) == Fingerprint(q, hash)
  {
    assert Lines(p.rules) == Lines(q.rules);
  }
}
