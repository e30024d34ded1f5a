/** The decision pipeline: suppression claims, dispatch to the audit and tier topics, and policy hot reload. */
module DecisionPipeline {
  import opened Basics
  import opened DecisionPolicy
  import opened DecisionTrace

  // ---------- Suppression ----------

  /** How Redis behaves during one claim.  It may raise after the key was set. */
  datatype Redis = Up | Down | DownAfterSet

  /** A claim that was granted by setting the key (not by failing open). */
  datatype Grant = Grant(key: string, at: int, ttlS: int)

  class SuppressionStore {
    /** expiry time in milliseconds per key */
    var expiry: map<string, int>
    ghost var grants: seq<Grant>

    ghost predicate Valid()
      reads this
    {
      && (forall i :: 0 <= i < |grants| ==> HoldsUntil(expiry, grants[i]))
      && Spaced(grants)
    }

    constructor ()
      ensures Valid() && grants == [] && expiry == map[]
    {
      expiry, grants := map[], [];
    }

    method Claim(key: string, ttlS: int, now: int, redis: Redis) returns (ok: bool)
      requires Valid()
      modifies this
      ensures Valid()
      ensures ok <==> ttlS <= 0 || redis != Up || !(key in old(expiry) && now < old(expiry[key]))
      ensures grants == old(grants) + if ok && ttlS > 0 && redis == Up then [Grant(key, now, ttlS)] else []
    {
      if ttlS <= 0 { return true; }
      if redis == Down { return true; }
      var held := key in expiry && now < expiry[key];
      if !held {
        expiry := expiry[key := now + ttlS * 1000];
      }
      if redis == DownAfterSet { return true; }
      if held { return false; }
      grants := grants + [Grant(key, now, ttlS)];
      return true;
    }
  }

  ghost predicate HoldsUntil(expiry: map<string, int>, g: Grant) {
    g.key in expiry && expiry[g.key] >= g.at + g.ttlS * 1000
  }

  /** Two grants of the same key are at least the earlier one's TTL apart. */
  ghost predicate Spaced(grants: seq<Grant>) {
    forall i, j :: 0 <= i < j < |grants| && grants[i].key == grants[j].key ==>
      grants[j].at >= grants[i].at + grants[i].ttlS * 1000
  }

  // ---------- Versions ----------

  datatype Version = Version(id: string, version: string, fingerprint: string, ruleCount: nat)

  function VersionOf(p: Policy, hash: seq<RuleLine> -> string): Version {
    Version(p.id, p.version, Fingerprint(p, hash), |p.rules|)
  }

  function VersionsOf(ps: seq<Policy>, hash: seq<RuleLine> -> string): seq<Version> {
    seq(|ps|, i requires 0 <= i < |ps| => VersionOf(ps[i], hash))
  }

  lemma HistoryAppend(ps: seq<Policy>, p: Policy, hash: seq<RuleLine> -> string, cap: nat)
    ensures LastN(LastN(VersionsOf(ps, hash), cap) + [VersionOf(p, hash)], cap) == LastN(VersionsOf(ps + [p], hash), cap)
  {
    assert VersionsOf(ps + [p], hash) == VersionsOf(ps, hash) + [VersionOf(p, hash)];
  }

  // ---------- The pipeline ----------

  class Pipeline {
    const store: SuppressionStore
    const producers: set<Tier>
    const hash: seq<RuleLine> -> string
    const historyCap: nat
    const initial: Policy
    var runnerPolicy: Policy
    var dispatcherPolicy: Policy
    var history: seq<Version>
    /** the handlers that have not finished, by the number of their event */
    var work: map<nat, Work>
    var next: nat
    ghost var log: seq<Message>
    ghost var ended: map<nat, Handling>
    ghost var received: map<nat, Receipt>
    ghost var built: map<nat, nat>
    /** policies swapped in by reloads, in order */
    ghost var applied: seq<Policy>

    ghost function TraceNow(): Trace
      reads this
    {
      Trace(log, next, work, ended, received, built)
    }

    function Settings(): Setting { Setting(producers, hash) }

    /** Every policy that has been live, the present one last. */
    ghost function Policies(): (ps: seq<Policy>)
      reads this
      ensures ps != []
    {
      [initial] + applied
    }

    ghost predicate Valid()
      reads this, store
    {
      && store.Valid()
      && runnerPolicy == dispatcherPolicy == Last(Policies())
      && (forall i :: 0 <= i < |applied| ==> ValidPolicy(applied[i]))
      && Sound(TraceNow(), Policies(), Settings())
      && history == LastN(VersionsOf(Policies(), hash), historyCap)
    }

    constructor (policy: Policy, producers: set<Tier>, hash: seq<RuleLine> -> string, historyCap: nat := 10)
      ensures Valid() && fresh(store) && TraceNow() == NO_TRACE && applied == [] && initial == policy
      ensures this.producers == producers && this.hash == hash && this.historyCap == historyCap
    {
      store := new SuppressionStore();
      this.producers, this.hash, this.historyCap, initial := producers, hash, historyCap, policy;
      runnerPolicy, dispatcherPolicy, next, work := policy, policy, 0, map[];
      log, applied, ended, received, built := [], [], map[], map[], map[];
      history := LastN([VersionOf(policy, hash)], historyCap);
      new;
      assert [initial] + applied == [initial];
      assert VersionsOf([initial], hash) == [VersionOf(policy, hash)];
      NothingYet(Policies(), Settings());
    }

    // ---------- The steps of a handler ----------

    /** Up to the first point where another handler can run: evaluate, and build the decision if nothing is claimed. */
    method OnEvent(input: Input) returns (n: nat)
      requires Valid()
      modifies this`work, this`next, this`ended, this`received, this`built
      ensures Valid() && n == old(next)
      ensures TraceNow() == Receive(old(TraceNow()), input, Policies(), Settings())
    {
      hide Sound, Evaluate, EvaluateSignal, EvaluateMotif;
      StepIsSound(TraceNow(), Arrives(input), Policies(), Settings());
      ghost var t := Receive(TraceNow(), input, Policies(), Settings());
      n := next;
      var o := OutcomeOf(runnerPolicy, input);
      if input.HasSubject() {
        if input.Claim(o).Some? {
          work := work[n := ToClaim(input, o)];
        } else {
          work := work[n := ToAudit(DecisionFor(n, dispatcherPolicy, o, input, hash))];
        }
      }
      next := n + 1;
      ended, received, built := t.ended, t.received, t.built;
    }

    /** The claim refuses exactly the keys that are held while Redis works. */
    predicate Refused(claim: Option<string>, now: int, redis: Redis)
      reads store
    {
      claim.Some? && redis == Up && claim.value in store.expiry && now < store.expiry[claim.value]
    }

    static function GrantOf(key: string, o: Outcome, now: int, redis: Redis): seq<Grant> {
      if redis == Up then [Grant(key, now, o.window)] else []
    }

    method OnClaim(n: nat, now: int, redis: Redis)
      requires Valid() && n in work && work[n].ToClaim?
      modifies this`work, this`ended, store
      ensures Valid()
      ensures var w := old(work[n]); var claim := w.input.Claim(w.o); var refused := old(Refused(claim, now, redis));
        && claim.Some?
        && TraceNow() == Claimed(old(TraceNow()), n, !refused)
        && store.grants == old(store.grants) + if refused then [] else GrantOf(claim.value, w.o, now, redis)
    {
      hide Sound;
      FitsNow(TraceNow(), n, Policies(), Settings());
      var input, o := work[n].input, work[n].o;
      var granted := store.Claim(input.Claim(o).value, o.window, now, redis);
      StepIsSound(TraceNow(), Claims(n, granted), Policies(), Settings());
      if granted {
        work := work[n := ToBuild(input, o)];
      } else {
        work := Without(work, n);
        ended := ended[n := Suppressed];
      }
    }

    /** The decision is stamped with the policy that is live now. */
    method OnBuild(n: nat)
      requires Valid() && n in work && work[n].ToBuild?
      modifies this`work, this`built
      ensures old(work[n].input).HasSubject()
      ensures Valid() && TraceNow() == Build(old(TraceNow()), n, Policies(), Settings())
    {
      hide Sound, Evaluate;
      FitsNow(TraceNow(), n, Policies(), Settings());
      StepIsSound(TraceNow(), Builds(n), Policies(), Settings());
      work := work[n := ToAudit(DecisionFor(n, dispatcherPolicy, work[n].o, work[n].input, hash))];
      built := built[n := |Policies()| - 1];
    }

    method OnSendAudit(n: nat, send: Send)
      requires Valid() && n in work && work[n].ToAudit?
      modifies this`work, this`ended, this`log
      ensures Valid() && TraceNow() == SendAudit(old(TraceNow()), n, send, Settings())
    {
      hide Sound;
      StepIsSound(TraceNow(), SendsAudit(n, send), Policies(), Settings());
      var d := work[n].d;
      if send != Lost { log := log + [Audit(d)]; }
      if send != Delivered {
        work := Without(work, n);
        ended := ended[n := AuditFailed];
      } else if d.tier in producers {
        work := work[n := ToAct(d)];
      } else {
        work := Without(work, n);
        ended := ended[n := Dispatched(d)];
      }
    }

    method OnSendAction(n: nat, send: Send)
      requires Valid() && n in work && work[n].ToAct?
      modifies this`work, this`ended, this`log
      ensures Valid() && TraceNow() == SendAction(old(TraceNow()), n, send)
    {
      hide Sound;
      StepIsSound(TraceNow(), SendsAction(n, send), Policies(), Settings());
      var d := work[n].d;
      if send != Lost { log := log + [Action(d.tier, d)]; }
      ended := ended[n := if send == Delivered then Dispatched(d) else ActionFailed(d)];
      work := Without(work, n);
    }

    // ---------- Reloading ----------

    /** A loaded policy goes live: it is valid and its fingerprint differs from the active one's. */
    ghost predicate GoesLive(loaded: Option<Policy>)
      reads this
    {
      && loaded.Some? && ValidPolicy(loaded.value)
      && Fingerprint(loaded.value, hash) != Fingerprint(runnerPolicy, hash)
    }

    /** Parse, validate, compare fingerprints, swap both copies, remember the version.  Handlers in work go on. */
    method Reload(loaded: Option<Policy>) returns (r: Option<Version>)
      requires Valid()
      modifies this`runnerPolicy, this`dispatcherPolicy, this`history, this`applied
      ensures Valid()
      ensures if old(GoesLive(loaded)) then
          && r == Some(VersionOf(loaded.value, hash)) && runnerPolicy == loaded.value
          && r.value.id == loaded.value.id && r.value.version == loaded.value.version
          && r.value.fingerprint == Fingerprint(loaded.value, hash) && r.value.ruleCount == |loaded.value.rules|
          && applied == old(applied) + [loaded.value]
        else
          r == None && runnerPolicy == old(runnerPolicy) && applied == old(applied) && history == old(history)
    {
      hide ValidPolicy, Sound, LastN;
      if loaded.None? { return None; }
      var p := loaded.value;
      var ok := Validate(p);
      if !ok { return None; }
      if Fingerprint(p, hash) == Fingerprint(dispatcherPolicy, hash) { return None; }
      dispatcherPolicy := p;
      runnerPolicy := p;
      HistoryAppend(Policies(), p, hash, historyCap);
      ReloadIsSound(TraceNow(), Policies(), p, Settings());
      assert Policies() + [p] == [initial] + (applied + [p]);
      applied := applied + [p];
      history := LastN(history + [VersionOf(p, hash)], historyCap);
      return Some(VersionOf(p, hash));
    }

    /** An edit that only touches match predicates or the default may be valid, and still never goes live. */
    lemma MatchEditsNeverGoLive(p: Policy)
      requires |p.rules| == |runnerPolicy.rules|
      requires forall i :: 0 <= i < |p.rules| ==> p.rules[i] == runnerPolicy.rules[i].(guard := p.rules[i].guard)
      ensures !GoesLive(Some(p))
    {
      FingerprintIgnoresMatches(runnerPolicy, p, hash);
    }

    // ---------- A handler that is not interrupted ----------

    method Prepare(input: Input, now: int, redis: Redis) returns (n: nat)
      requires Valid()
      modifies this`work, this`next, this`ended, this`received, this`built, store
      ensures Valid() && n == old(next) && log == old(log)
      ensures var claim := input.Claim(OutcomeOf(runnerPolicy, input)); var refused := old(Refused(claim, now, redis));
        && TraceNow() == Prepared(old(TraceNow()), input, !refused, Policies(), Settings())
        && store.grants == old(store.grants) +
             if claim.None? || refused then [] else GrantOf(claim.value, OutcomeOf(runnerPolicy, input), now, redis)
    {
      hide Sound, OutcomeOf, DecisionFor, Receive, Claimed, Build;
      NextIsNew(TraceNow(), Policies(), Settings());
      ReceiveToClaim(TraceNow(), input, Policies(), Settings());
      n := OnEvent(input);
      if n in work && work[n].ToClaim? { OnClaim(n, now, redis); }
      if n in work && work[n].ToBuild? && work[n].input.HasSubject() { OnBuild(n); }
    }

    method Publish(n: nat, audit: Send, action: Send)
      requires Valid()
      modifies this`work, this`ended, this`log
      ensures Valid() && TraceNow() == BothSent(old(TraceNow()), n, audit, action, Settings())
    {
      hide Sound, SendAudit, SendAction;
      if n in work && work[n].ToAudit? { OnSendAudit(n, audit); }
      if n in work && work[n].ToAct? { OnSendAction(n, action); }
    }

    /** All steps in a row.  The event is suppressed exactly when its key is held; otherwise the first matching rule's
        decision is published, stamped with the very policy that was evaluated. */
    method Handle(input: Input, now: int, redis: Redis, audit: Send, action: Send) returns (ghost r: Handling)
      requires Valid()
      modifies this`work, this`next, this`log, this`ended, this`received, this`built, store
      ensures Valid() && old(next) in ended && r == ended[old(next)]
      ensures !input.HasSubject() ==> r == NoMembers && log == old(log) && store.grants == old(store.grants)
      ensures input.HasSubject() ==>
        var o := OutcomeOf(runnerPolicy, input); var claim := input.Claim(o);
        var d := DecisionFor(old(next), runnerPolicy, o, input, hash);
        if old(Refused(claim, now, redis)) then
          r == Suppressed && log == old(log) && store.grants == old(store.grants)
        else
          && r == Published(d, producers, audit, action)
          && log == old(log) + SentFor(d, producers, audit, action)
          && store.grants == old(store.grants) + if claim.Some? then GrantOf(claim.value, o, now, redis) else []
    {
      hide Sound, OutcomeOf, DecisionFor, Prepared, BothSent, Published, SentFor, LastN, VersionsOf;
      ghost var t, refused := TraceNow(), Refused(input.Claim(OutcomeOf(runnerPolicy, input)), now, redis);
      NextIsNew(t, Policies(), Settings());
      PreparedMeaning(t, input, !refused, Policies(), Settings());
      var n := Prepare(input, now, redis);
      BothSentMeaning(TraceNow(), n, audit, action, Settings());
      Publish(n, audit, action);
      r := ended[n];
    }
  }

  /** A reload while a claim is under way: the decision follows the old policy and carries the new one's stamp. */
  method ReloadOvertakes(first: Policy, second: Policy, input: Input, hash: seq<RuleLine> -> string, now: int)
    returns (p: Pipeline)
    requires ValidPolicy(second) && Fingerprint(first, hash) != Fingerprint(second, hash)
    requires input.Claim(OutcomeOf(first, input)).Some?
    ensures fresh(p) && p.Valid() && p.initial == first && p.applied == [second]
    ensures p.log == [Audit(DecisionFor(0, second, OutcomeOf(first, input), input, hash))]
  {
    hide Sound, OutcomeOf, ValidPolicy, Fingerprint;
    p := new Pipeline(first, {}, hash);
    ReceiveToClaim(p.TraceNow(), input, p.Policies(), p.Settings());
    var n := p.OnEvent(input);
    p.OnClaim(n, now, DownAfterSet);
    var v := p.Reload(Some(second));
    p.OnBuild(n);
    p.OnSendAudit(n, Delivered);
  }

  lemma ReceiveToClaim(t: Trace, input: Input, policies: seq<Policy>, s: Setting)
    requires policies != [] && t.next !in t.work
    ensures var w, o := Receive(t, input, policies, s).work, OutcomeOf(Last(policies), input);
      t.next in w && w[t.next].ToClaim? <==> input.Claim(o).Some?
    ensures var w, o := Receive(t, input, policies, s).work, OutcomeOf(Last(policies), input);
      input.Claim(o).Some? ==> t.next in w && w[t.next] == ToClaim(input, o)
  {
    hide OutcomeOf, DecisionFor;
  }
}
