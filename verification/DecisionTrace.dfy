/** Handlers of the decision service as steps that may interleave: what every order of steps keeps.

  A handler evaluates its event, claims a suppression key, builds the decision, sends it to the audit topic and then to
  its tier's topic.  Between any two of these other handlers may run, and the policy may be reloaded. */
module DecisionTrace {
  import opened Basics
  import opened DecisionPolicy

  // ---------- Events and decisions ----------

  datatype Input = OfSignal(s: SignalEvent) | OfMotif(m: MotifEvent)
  {
    /** A motif without members cannot be dispatched. */
    predicate HasSubject() { OfMotif? ==> m.members != [] }

    function Subject(): string
      requires HasSubject()
    {
      if OfSignal? then s.subjectId else m.members[0]
    }

    function Tenant(): string { if OfSignal? then s.tenant else m.tenant }

    function SuppressionKey(): Option<string>
      requires HasSubject()
    {
      if OfSignal? then s.suppressionKey else Some(m.tenant + ":motif:" + m.motif + ":" + m.members[0])
    }

    /** The key the handler claims, if the outcome asks for suppression and there is one. */
    function Claim(o: Outcome): Option<string> {
      if o.window > 0 && HasSubject() && SuppressionKey().Some? && SuppressionKey().value != ""
      then Some(SuppressionKey().value + ":" + o.action) else None
    }
  }

  function OutcomeOf(p: Policy, input: Input): Outcome {
    if input.OfSignal? then EvaluateSignal(p, input.s) else EvaluateMotif(p, input.m)
  }

  datatype Decision = Decision(
    number: nat, tier: Tier, action: string, ruleId: string, subject: string, tenant: string,
    policyId: string, policyVersion: string, fingerprint: string, suppressionKey: Option<string>)

  /** The outcome o of an event, stamped with policy p. */
  function DecisionFor(number: nat, p: Policy, o: Outcome, input: Input, hash: seq<RuleLine> -> string): Decision
    requires input.HasSubject()
  {
    Decision(number, o.tier, o.action, o.ruleId, input.Subject(), input.Tenant(),
             p.id, p.version, Fingerprint(p, hash), input.SuppressionKey())
  }

  // ---------- Traces ----------

  datatype Message = Audit(d: Decision) | Action(topic: Tier, d: Decision)

  /** Where a handler is. */
  datatype Work =
    | ToClaim(input: Input, o: Outcome)
    | ToBuild(input: Input, o: Outcome)
    | ToAudit(d: Decision)
    | ToAct(d: Decision)

  /** What became of a handled event. */
  datatype Handling =
    | Suppressed
    | Dispatched(decision: Decision)
    | AuditFailed
    | ActionFailed(decision: Decision)
    | NoMembers

  /** An event and the number of policies that had been live when it was evaluated. */
  datatype Receipt = Receipt(input: Input, at: nat)

  /** How a send goes; it may raise after the message has left. */
  datatype Send = Delivered | Lost | DeliveredThenRaised

  /** Events are numbered as they arrive.  built: policies that had been live when the decision was stamped. */
  datatype Trace = Trace(
    log: seq<Message>, next: nat, work: map<nat, Work>, ended: map<nat, Handling>,
    received: map<nat, Receipt>, built: map<nat, nat>)

  const NO_TRACE := Trace([], 0, map[], map[], map[], map[])

  datatype Setting = Setting(producers: set<Tier>, hash: seq<RuleLine> -> string)

  // ---------- What every trace keeps ----------

  /** Every tier message has its own audit message somewhere before it and goes to its decision's tier. */
  ghost predicate AuditedFirst(log: seq<Message>, producers: set<Tier>) {
    forall i :: 0 <= i < |log| && log[i].Action? ==>
      Audit(log[i].d) in log[..i] && log[i].topic == log[i].d.tier && log[i].topic in producers
  }

  /** No event is audited twice, and none is acted on twice. */
  ghost predicate SentOnce(log: seq<Message>) {
    forall i, j :: 0 <= i < j < |log| && log[i].Audit? == log[j].Audit? ==> log[i].d.number != log[j].d.number
  }

  ghost predicate Unseen(log: seq<Message>, n: nat) { forall m :: m in log ==> m.d.number != n }

  ghost predicate NotActedOn(log: seq<Message>, n: nat) { forall m :: m in log && m.Action? ==> m.d.number != n }

  /** A handler at this point has sent what it should have, and nothing else. */
  ghost predicate WorkFits(log: seq<Message>, n: nat, w: Work, producers: set<Tier>) {
    match w
    case ToClaim(input, o) => Unseen(log, n) && input.Claim(o).Some?
    case ToBuild(input, _) => Unseen(log, n) && input.HasSubject()
    case ToAudit(_) => Unseen(log, n)
    case ToAct(d) => NotActedOn(log, n) && d.number == n && Audit(d) in log && d.tier in producers
  }

  ghost predicate EndFits(log: seq<Message>, n: nat, h: Handling) {
    match h
    case Suppressed => Unseen(log, n)
    case NoMembers => Unseen(log, n)
    case AuditFailed => NotActedOn(log, n)
    case Dispatched(d) => d.number == n && Audit(d) in log
    case ActionFailed(d) => d.number == n && Audit(d) in log
  }

  /** Every event is in work or has ended, as its messages say. */
  ghost predicate Accounted(t: Trace, producers: set<Tier>) {
    && (forall n: nat :: n < t.next <==> n in t.work || n in t.ended)
    && (forall n :: n in t.work ==> n !in t.ended && WorkFits(t.log, n, t.work[n], producers))
    && (forall n :: n in t.ended ==> EndFits(t.log, n, t.ended[n]))
    && (forall m :: m in t.log ==> m.d.number < t.next)
  }

  /** d carries the outcome of the policy its event was evaluated under, and the stamp of one that was live later. */
  ghost predicate IsTrue(d: Decision, t: Trace, policies: seq<Policy>, hash: seq<RuleLine> -> string) {
    && d.number in t.received && d.number in t.built
    && var r, k := t.received[d.number], t.built[d.number];
       && r.at <= k < |policies| && r.input.HasSubject()
       && d == DecisionFor(d.number, policies[k], OutcomeOf(policies[r.at], r.input), r.input, hash)
  }

  ghost predicate WorkIsTrue(n: nat, w: Work, t: Trace, policies: seq<Policy>, hash: seq<RuleLine> -> string) {
    match w
    case ToClaim(input, o) => IsEvaluated(n, input, o, t, policies)
    case ToBuild(input, o) => IsEvaluated(n, input, o, t, policies)
    case ToAudit(d) => d.number == n && IsTrue(d, t, policies, hash)
    case ToAct(d) => d.number == n && IsTrue(d, t, policies, hash)
  }

  ghost predicate IsEvaluated(n: nat, input: Input, o: Outcome, t: Trace, policies: seq<Policy>) {
    n in t.received && t.received[n].input == input && t.received[n].at < |policies|
    && o == OutcomeOf(policies[t.received[n].at], input)
  }

  ghost predicate Truthful(t: Trace, policies: seq<Policy>, hash: seq<RuleLine> -> string) {
    && (forall m :: m in t.log ==> IsTrue(m.d, t, policies, hash))
    && (forall n :: n in t.work ==> WorkIsTrue(n, t.work[n], t, policies, hash))
    && (forall n :: n in t.received || n in t.built ==> n < t.next)
  }

  ghost predicate Sound(t: Trace, policies: seq<Policy>, s: Setting) {
    && AuditedFirst(t.log, s.producers) && SentOnce(t.log)
    && Accounted(t, s.producers) && Truthful(t, policies, s.hash)
  }

  // ---------- Steps ----------

  function Last(policies: seq<Policy>): Policy
    requires policies != []
  {
    policies[|policies| - 1]
  }

  /** Evaluate.  Without a claim the decision is built before any other handler can run. */
  function Receive(t: Trace, input: Input, policies: seq<Policy>, s: Setting): Trace
    requires policies != []
  {
    var o := OutcomeOf(Last(policies), input);
    var t' := t.(next := t.next + 1, received := t.received[t.next := Receipt(input, |policies| - 1)]);
    if !input.HasSubject() then t'.(ended := t.ended[t.next := NoMembers])
    else if input.Claim(o).Some? then t'.(work := t.work[t.next := ToClaim(input, o)])
    else t'.(work := t.work[t.next := ToAudit(DecisionFor(t.next, Last(policies), o, input, s.hash))],
             built := t.built[t.next := |policies| - 1])
  }

  function Without(work: map<nat, Work>, n: nat): map<nat, Work> { work - {n} }

  function End(t: Trace, n: nat, h: Handling): Trace {
    t.(work := Without(t.work, n), ended := t.ended[n := h])
  }

  function Claimed(t: Trace, n: nat, granted: bool): Trace
    requires n in t.work && t.work[n].ToClaim?
  {
    if granted then t.(work := t.work[n := ToBuild(t.work[n].input, t.work[n].o)]) else End(t, n, Suppressed)
  }

  function Build(t: Trace, n: nat, policies: seq<Policy>, s: Setting): Trace
    requires policies != [] && n in t.work && t.work[n].ToBuild? && t.work[n].input.HasSubject()
  {
    t.(work := t.work[n := ToAudit(DecisionFor(n, Last(policies), t.work[n].o, t.work[n].input, s.hash))],
       built := t.built[n := |policies| - 1])
  }

  function SendAudit(t: Trace, n: nat, send: Send, s: Setting): Trace
    requires n in t.work && t.work[n].ToAudit?
  {
    var d := t.work[n].d;
    var t' := if send == Lost then t else t.(log := t.log + [Audit(d)]);
    if send != Delivered then End(t', n, AuditFailed)
    else if d.tier in s.producers then t'.(work := t.work[n := ToAct(d)])
    else End(t', n, Dispatched(d))
  }

  function SendAction(t: Trace, n: nat, send: Send): Trace
    requires n in t.work && t.work[n].ToAct?
  {
    var d := t.work[n].d;
    var t' := if send == Lost then t else t.(log := t.log + [Action(d.tier, d)]);
    End(t', n, if send == Delivered then Dispatched(d) else ActionFailed(d))
  }

  datatype Step =
    | Arrives(input: Input)
    | Claims(n: nat, granted: bool)
    | Builds(n: nat)
    | SendsAudit(n: nat, send: Send)
    | SendsAction(n: nat, send: Send)

  /** The event a step belongs to. */
  function EventOf(t: Trace, step: Step): nat { if step.Arrives? then t.next else step.n }

  predicate Enabled(t: Trace, step: Step) {
    match step
    case Arrives(_) => true
    case Claims(n, _) => n in t.work && t.work[n].ToClaim?
    case Builds(n) => n in t.work && t.work[n].ToBuild? && t.work[n].input.HasSubject()
    case SendsAudit(n, _) => n in t.work && t.work[n].ToAudit?
    case SendsAction(n, _) => n in t.work && t.work[n].ToAct?
  }

  function Next(t: Trace, step: Step, policies: seq<Policy>, s: Setting): Trace
    requires policies != [] && Enabled(t, step)
  {
    match step
    case Arrives(input) => Receive(t, input, policies, s)
    case Claims(n, granted) => Claimed(t, n, granted)
    case Builds(n) => Build(t, n, policies, s)
    case SendsAudit(n, send) => SendAudit(t, n, send, s)
    case SendsAction(n, send) => SendAction(t, n, send)
  }

  // ---------- Every step keeps it ----------

  lemma NothingYet(policies: seq<Policy>, s: Setting)
    ensures Sound(NO_TRACE, policies, s)
  {
  }

  ghost predicate Extends(log: seq<Message>, log': seq<Message>, n: nat) {
    log' == log || (|log'| == |log| + 1 && log'[..|log|] == log && log'[|log|].d.number == n)
  }

  /** A step of handler n touches nothing that belongs to other events. */
  ghost predicate OnlyTouches(t: Trace, t': Trace, n: nat) {
    && Extends(t.log, t'.log, n)
    && n < t'.next && (t'.next == t.next || (t'.next == t.next + 1 && n == t.next))
    && (forall k :: k != n ==> (k in t'.work <==> k in t.work) && (k in t.work ==> t'.work[k] == t.work[k]))
    && (forall k :: k != n ==> (k in t'.ended <==> k in t.ended) && (k in t.ended ==> t'.ended[k] == t.ended[k]))
    && (forall k :: k != n ==> (k in t'.received <==> k in t.received) && (k in t.received ==> t'.received[k] == t.received[k]))
    && (forall k :: k != n ==> (k in t'.built <==> k in t.built) && (k in t.built ==> t'.built[k] == t.built[k]))
  }

  lemma FitsElsewhere(log: seq<Message>, log': seq<Message>, n: nat, k: nat, producers: set<Tier>)
    requires Extends(log, log', n) && k != n
    ensures forall w :: WorkFits(log, k, w, producers) ==> WorkFits(log', k, w, producers)
    ensures forall h :: EndFits(log, k, h) ==> EndFits(log', k, h)
  {
    LastMessage(log, log', n);
  }

  lemma LastMessage(log: seq<Message>, log': seq<Message>, n: nat)
    requires Extends(log, log', n)
    ensures forall m :: m in log' <==> m in log || (|log'| > |log| && m == log'[|log|])
  {
    if log' != log { assert log' == log + [log'[|log|]]; }
  }

  /** It is enough to look at event n. */
  lemma StepIsAccounted(t: Trace, t': Trace, n: nat, producers: set<Tier>)
    requires Accounted(t, producers) && OnlyTouches(t, t', n)
    requires n in t'.work <==> n !in t'.ended
    requires n in t'.work ==> WorkFits(t'.log, n, t'.work[n], producers)
    requires n in t'.ended ==> EndFits(t'.log, n, t'.ended[n])
    ensures Accounted(t', producers)
  {
    hide WorkFits, EndFits;
    forall k | k in t'.work && k != n ensures WorkFits(t'.log, k, t'.work[k], producers) {
      FitsElsewhere(t.log, t'.log, n, k, producers);
    }
    forall k | k in t'.ended && k != n ensures EndFits(t'.log, k, t'.ended[k]) {
      FitsElsewhere(t.log, t'.log, n, k, producers);
    }
    LastMessage(t.log, t'.log, n);
  }

  lemma StepIsTruthful(t: Trace, t': Trace, n: nat, policies: seq<Policy>, hash: seq<RuleLine> -> string)
    requires Truthful(t, policies, hash) && OnlyTouches(t, t', n)
    requires n in t'.work ==> WorkIsTrue(n, t'.work[n], t', policies, hash)
    requires Unseen(t.log, n) || (t'.received == t.received && t'.built == t.built)
    requires t'.log != t.log ==> IsTrue(t'.log[|t.log|].d, t', policies, hash)
    ensures Truthful(t', policies, hash)
  {
    hide IsTrue, IsEvaluated;
    LastMessage(t.log, t'.log, n);
    forall m | m in t.log ensures IsTrue(m.d, t', policies, hash) { SameTruth(m.d, t, t', policies, hash); }
    forall k | k in t'.work && k != n ensures WorkIsTrue(k, t'.work[k], t', policies, hash) {
      SameWork(k, t.work[k], t, t', policies, hash);
    }
  }

  lemma SameTruth(d: Decision, t: Trace, t': Trace, policies: seq<Policy>, hash: seq<RuleLine> -> string)
    requires d.number in t.received ==> d.number in t'.received && t.received[d.number] == t'.received[d.number]
    requires d.number in t.built ==> d.number in t'.built && t.built[d.number] == t'.built[d.number]
    requires IsTrue(d, t, policies, hash)
    ensures IsTrue(d, t', policies, hash)
  {
  }

  lemma SameWork(k: nat, w: Work, t: Trace, t': Trace, policies: seq<Policy>, hash: seq<RuleLine> -> string)
    requires k in t.received ==> k in t'.received && t.received[k] == t'.received[k]
    requires k in t.built ==> k in t'.built && t.built[k] == t'.built[k]
    requires WorkIsTrue(k, w, t, policies, hash)
    ensures WorkIsTrue(k, w, t', policies, hash)
  {
  }

  lemma FitsNow(t: Trace, n: nat, policies: seq<Policy>, s: Setting)
    requires Sound(t, policies, s) && n in t.work
    ensures n < t.next && n !in t.ended && WorkFits(t.log, n, t.work[n], s.producers)
    ensures WorkIsTrue(n, t.work[n], t, policies, s.hash)
  {
  }

  lemma ReceiveTouches(t: Trace, input: Input, policies: seq<Policy>, s: Setting)
    requires policies != []
    ensures OnlyTouches(t, Receive(t, input, policies, s), t.next)
  {
    hide OutcomeOf, DecisionFor;
  }

  lemma AuditTouches(t: Trace, n: nat, send: Send, s: Setting)
    requires n in t.work && t.work[n].ToAudit? && t.work[n].d.number == n && n < t.next
    ensures OnlyTouches(t, SendAudit(t, n, send, s), n)
  {
  }

  lemma Touches(t: Trace, step: Step, policies: seq<Policy>, s: Setting)
    requires policies != [] && Enabled(t, step) && EventOf(t, step) <= t.next
    requires !step.Arrives? ==> step.n < t.next
    requires step.SendsAudit? || step.SendsAction? ==> t.work[step.n].d.number == step.n
    ensures OnlyTouches(t, Next(t, step, policies, s), EventOf(t, step))
  {
    hide OutcomeOf, DecisionFor, Receive, SendAudit;
    match step {
      case Arrives(input) => ReceiveTouches(t, input, policies, s);
      case SendsAudit(n, send) => AuditTouches(t, n, send, s);
      case _ =>
    }
  }

  lemma ReceiveFits(t: Trace, input: Input, policies: seq<Policy>, s: Setting)
    requires policies != [] && Unseen(t.log, t.next) && t.next !in t.work && t.next !in t.ended
    ensures var n, t' := t.next, Receive(t, input, policies, s);
      && (n in t'.work <==> n !in t'.ended) && t'.log == t.log
      && (n in t'.work ==> WorkFits(t'.log, n, t'.work[n], s.producers) && WorkIsTrue(n, t'.work[n], t', policies, s.hash))
      && (n in t'.ended ==> EndFits(t'.log, n, t'.ended[n]))
  {
    hide OutcomeOf, Unseen, Fingerprint;
  }

  lemma AuditFits(t: Trace, n: nat, send: Send, s: Setting)
    requires n in t.work && t.work[n].ToAudit? && t.work[n].d.number == n && Unseen(t.log, n) && n !in t.ended
    ensures var t' := SendAudit(t, n, send, s);
      && (n in t'.work <==> n !in t'.ended)
      && (n in t'.work ==> t'.work[n] == ToAct(t.work[n].d) && WorkFits(t'.log, n, t'.work[n], s.producers))
      && (n in t'.ended ==> EndFits(t'.log, n, t'.ended[n]))
      && (t'.log != t.log ==> t'.log[|t.log|].d == t.work[n].d) && t'.received == t.received && t'.built == t.built
  {
    NewMessage(t.log, Audit(t.work[n].d));
  }

  lemma ActionFits(t: Trace, n: nat, send: Send)
    requires n in t.work && t.work[n].ToAct? && t.work[n].d.number == n && n !in t.ended && Audit(t.work[n].d) in t.log
    ensures var t' := SendAction(t, n, send);
      && n !in t'.work && n in t'.ended && EndFits(t'.log, n, t'.ended[n])
      && (t'.log != t.log ==> t'.log[|t.log|].d == t.work[n].d) && t'.received == t.received && t'.built == t.built
  {
    NewMessage(t.log, Action(t.work[n].d.tier, t.work[n].d));
  }

  /** After a step its own event is where it should be, and what it carries is true. */
  lemma FitsAfter(t: Trace, step: Step, policies: seq<Policy>, s: Setting)
    requires policies != [] && Enabled(t, step) && EventOf(t, step) !in t.ended
    requires step.Arrives? ==> Unseen(t.log, t.next) && t.next !in t.work
    requires !step.Arrives? ==>
      WorkFits(t.log, step.n, t.work[step.n], s.producers) && WorkIsTrue(step.n, t.work[step.n], t, policies, s.hash)
    ensures var n, t' := EventOf(t, step), Next(t, step, policies, s);
      && (n in t'.work <==> n !in t'.ended)
      && (n in t'.work ==> WorkFits(t'.log, n, t'.work[n], s.producers) && WorkIsTrue(n, t'.work[n], t', policies, s.hash))
      && (n in t'.ended ==> EndFits(t'.log, n, t'.ended[n]))
      && (t'.log != t.log ==> IsTrue(t'.log[|t.log|].d, t', policies, s.hash))
      && (Unseen(t.log, n) || (t'.received == t.received && t'.built == t.built))
  {
    hide OutcomeOf, Fingerprint, Receive, SendAudit, SendAction, Unseen, NotActedOn;
    match step {
      case Arrives(input) => ReceiveFits(t, input, policies, s);
      case SendsAudit(n, send) => AuditFits(t, n, send, s);
      case SendsAction(n, send) => ActionFits(t, n, send);
      case _ =>
    }
  }

  lemma OrderAfter(t: Trace, step: Step, policies: seq<Policy>, s: Setting)
    requires policies != [] && Enabled(t, step) && AuditedFirst(t.log, s.producers) && SentOnce(t.log)
    requires !step.Arrives? ==>
      WorkFits(t.log, step.n, t.work[step.n], s.producers) && WorkIsTrue(step.n, t.work[step.n], t, policies, s.hash)
    ensures var t' := Next(t, step, policies, s); AuditedFirst(t'.log, s.producers) && SentOnce(t'.log)
  {
    hide OutcomeOf, DecisionFor, IsTrue, IsEvaluated, AuditedFirst, SentOnce;
    if step.SendsAudit? { AppendKeepsOrder(t.log, Audit(t.work[step.n].d), s.producers); }
    if step.SendsAction? { AppendKeepsOrder(t.log, Action(t.work[step.n].d.tier, t.work[step.n].d), s.producers); }
  }

  /** Every step of every handler keeps the trace sound. */
  lemma StepIsSound(t: Trace, step: Step, policies: seq<Policy>, s: Setting)
    requires Sound(t, policies, s) && policies != [] && Enabled(t, step)
    ensures Sound(Next(t, step, policies, s), policies, s)
  {
    var n, t' := EventOf(t, step), Next(t, step, policies, s);
    if step.Arrives? { NextIsNew(t, policies, s); } else { FitsNow(t, n, policies, s); }
    TakesItsNumber(t, step, policies, s);
    hide AuditedFirst, SentOnce, OnlyTouches, WorkFits, EndFits, WorkIsTrue, IsTrue, Unseen, Next;
    OrderAfter(t, step, policies, s);
    Touches(t, step, policies, s);
    FitsAfter(t, step, policies, s);
    StepIsAccounted(t, t', n, s.producers);
    StepIsTruthful(t, t', n, policies, s.hash);
  }

  lemma NextIsNew(t: Trace, policies: seq<Policy>, s: Setting)
    requires Sound(t, policies, s)
    ensures Unseen(t.log, t.next) && t.next !in t.work && t.next !in t.ended
  {
  }

  lemma TakesItsNumber(t: Trace, step: Step, policies: seq<Policy>, s: Setting)
    requires Enabled(t, step) && !step.Arrives? ==> WorkIsTrue(step.n, t.work[step.n], t, policies, s.hash)
    ensures Enabled(t, step) && (step.SendsAudit? || step.SendsAction?) ==> t.work[step.n].d.number == step.n
  {
  }

  // ---------- Runs ----------

  /** A step of some handler, or a policy going live. */
  datatype Move = Does(step: Step) | GoesLive(p: Policy)

  datatype World = World(t: Trace, policies: seq<Policy>)

  ghost predicate IsMove(v: World, w: World, m: Move, s: Setting) {
    match m
    case Does(step) => v.policies != [] && Enabled(v.t, step) && w == World(Next(v.t, step, v.policies, s), v.policies)
    case GoesLive(p) => w == World(v.t, v.policies + [p])
  }

  ghost predicate Follows(v: World, w: World, s: Setting) { exists m :: IsMove(v, w, m, s) }

  /** From an empty trace under the policy p, one move after the other, in whatever order handlers take them. */
  ghost predicate IsRun(ws: seq<World>, p: Policy, s: Setting) {
    && ws != [] && ws[0] == World(NO_TRACE, [p])
    && forall i :: 0 < i < |ws| ==> Follows(ws[i - 1], ws[i], s)
  }

  /** Every run, however handlers and reloads interleave, is sound throughout. */
  lemma {:induction false} RunsAreSound(ws: seq<World>, p: Policy, s: Setting, i: nat)
    requires IsRun(ws, p, s) && i < |ws|
    ensures Sound(ws[i].t, ws[i].policies, s)
  {
    hide Sound, Next, Enabled;
    if i == 0 {
      NothingYet([p], s);
    } else {
      RunsAreSound(ws, p, s, i - 1);
      var v, w := ws[i - 1], ws[i];
      assert Follows(v, w, s);
      var m :| IsMove(v, w, m, s);
      match m {
        case Does(step) => StepIsSound(v.t, step, v.policies, s);
        case GoesLive(q) => ReloadIsSound(v.t, v.policies, q, s);
      }
    }
  }

  lemma NewMessage(log: seq<Message>, m: Message)
    ensures Extends(log, log + [m], m.d.number) && m in log + [m] && forall x :: x in log ==> x in log + [m]
    ensures m.Audit? && Unseen(log, m.d.number) ==> NotActedOn(log + [m], m.d.number)
  {
  }

  /** An audit message of an unseen event, or a tier message of an audited one that was not acted on, keeps the order. */
  lemma AppendKeepsOrder(log: seq<Message>, m: Message, producers: set<Tier>)
    requires AuditedFirst(log, producers) && SentOnce(log)
    requires match m
      case Audit(d) => Unseen(log, d.number)
      case Action(topic, d) => NotActedOn(log, d.number) && Audit(d) in log && topic == d.tier && topic in producers
    ensures AuditedFirst(log + [m], producers) && SentOnce(log + [m])
  {
    var r := log + [m];
    forall i | 0 <= i < |r| && r[i].Action?
      ensures Audit(r[i].d) in r[..i] && r[i].topic == r[i].d.tier && r[i].topic in producers
    {
      if i < |log| { assert r[..i] == log[..i]; } else { assert r[..i] == log; }
    }
    forall i | 0 <= i < |log| && r[i].Audit? == m.Audit? ensures r[i].d.number != m.d.number { assert r[i] in log; }
  }

  /** Another policy going live changes nothing about what was evaluated or stamped before. */
  lemma ReloadIsSound(t: Trace, policies: seq<Policy>, p: Policy, s: Setting)
    requires Sound(t, policies, s)
    ensures Sound(t, policies + [p], s)
  {
    var ps := policies + [p];
    forall m | m in t.log ensures IsTrue(m.d, t, ps, s.hash) { assert IsTrue(m.d, t, policies, s.hash); }
    forall n | n in t.work ensures WorkIsTrue(n, t.work[n], t, ps, s.hash) {
      assert WorkIsTrue(n, t.work[n], t, policies, s.hash);
    }
  }

  // ---------- A handler that is not interrupted ----------

  /** The steps up to a built decision, in a row. */
  function Prepared(t: Trace, input: Input, granted: bool, policies: seq<Policy>, s: Setting): Trace
    requires policies != []
  {
    var n, received := t.next, Receive(t, input, policies, s);
    var claimed := if n in received.work && received.work[n].ToClaim? then Claimed(received, n, granted) else received;
    if n in claimed.work && claimed.work[n].ToBuild? && claimed.work[n].input.HasSubject()
    then Build(claimed, n, policies, s) else claimed
  }

  /** Both sends in a row. */
  function BothSent(t: Trace, n: nat, audit: Send, action: Send, s: Setting): Trace {
    var audited := if n in t.work && t.work[n].ToAudit? then SendAudit(t, n, audit, s) else t;
    if n in audited.work && audited.work[n].ToAct? then SendAction(audited, n, action) else audited
  }

  /** The result of publishing d when the sends behave as given. */
  function Published(d: Decision, producers: set<Tier>, audit: Send, action: Send): Handling {
    if audit != Delivered then AuditFailed
    else if d.tier in producers && action != Delivered then ActionFailed(d)
    else Dispatched(d)
  }

  /** The messages that leave: audit always first, the tier topic only after it and only with a producer. */
  function SentFor(d: Decision, producers: set<Tier>, audit: Send, action: Send): seq<Message> {
    (if audit != Lost then [Audit(d)] else [])
    + (if audit == Delivered && d.tier in producers && action != Lost then [Action(d.tier, d)] else [])
  }

  lemma PreparedMeaning(t: Trace, input: Input, granted: bool, policies: seq<Policy>, s: Setting)
    requires policies != [] && t.next !in t.work && t.next !in t.ended
    ensures var n, t' := t.next, Prepared(t, input, granted, policies, s);
      && t'.log == t.log
      && (!input.HasSubject() ==> n !in t'.work && n in t'.ended && t'.ended[n] == NoMembers)
      && (input.HasSubject() ==>
            var o := OutcomeOf(Last(policies), input);
            if input.Claim(o).Some? && !granted then n !in t'.work && n in t'.ended && t'.ended[n] == Suppressed
            else n in t'.work && n !in t'.ended && t'.work[n] == ToAudit(DecisionFor(n, Last(policies), o, input, s.hash)))
  {
    hide OutcomeOf, DecisionFor;
  }

  lemma BothSentMeaning(t: Trace, n: nat, audit: Send, action: Send, s: Setting)
    ensures var t' := BothSent(t, n, audit, action, s);
      && (n !in t.work ==> t' == t)
      && (n in t.work && t.work[n].ToAudit? ==>
            && n in t'.ended && t'.ended[n] == Published(t.work[n].d, s.producers, audit, action)
            && t'.log == t.log + SentFor(t.work[n].d, s.producers, audit, action))
  {
  }

  // ---------- What is claimed ----------

  /** Nothing is claimed without a window, or without a key; otherwise the event's own key and the action. */
  lemma ClaimMeans(input: Input, o: Outcome)
    ensures input.Claim(o).None? <==>
      || o.window <= 0
      || (input.OfSignal? && (input.s.suppressionKey.None? || input.s.suppressionKey.value == ""))
      || (input.OfMotif? && input.m.members == [])
    ensures input.OfSignal? && input.Claim(o).Some? ==>
      input.Claim(o).value == input.s.suppressionKey.value + ":" + o.action
    ensures input.OfMotif? && input.Claim(o).Some? ==>
      input.Claim(o).value == input.m.tenant + ":motif:" + input.m.motif + ":" + input.m.members[0] + ":" + o.action
  {
  }

  /** Two actions of one event never share a key. */
  lemma ActionsClaimApart(input: Input, o: Outcome, o': Outcome)
    requires input.Claim(o).Some? && input.Claim(o').Some? && input.Claim(o) == input.Claim(o')
    ensures o.action == o'.action
  {
    var key := input.SuppressionKey().value + ":";
    assert input.Claim(o).value == key + o.action && input.Claim(o').value == key + o'.action;
    assert (key + o.action)[|key|..] == o.action && (key + o'.action)[|key|..] == o'.action;
  }

  // ---------- What it means for a reader of the topics ----------

  /** Every event that is no longer in work was suppressed, had no subject, lost its audit message to a failing send,
      or is audited. */
  lemma SuppressedOrAudited(t: Trace, policies: seq<Policy>, s: Setting, n: nat)
    requires Sound(t, policies, s) && n < t.next && n !in t.work
    ensures n in t.ended && (t.ended[n] in {Suppressed, NoMembers, AuditFailed} || exists d: Decision :: d.number == n && Audit(d) in t.log)
  {
    assert EndFits(t.log, n, t.ended[n]);
  }

  /** What a policy is recognised by. */
  function StampOf(p: Policy, hash: seq<RuleLine> -> string): (string, string, string) {
    (p.id, p.version, Fingerprint(p, hash))
  }

  /** Every message is the first matching rule's decision of a policy that was live when its event arrived.  It carries
      that policy's stamp exactly when the policy it was built under has the same one; always, if none went live in
      between. */
  lemma ActionsAreDecisions(t: Trace, policies: seq<Policy>, s: Setting, m: Message)
    requires Sound(t, policies, s) && m in t.log
    ensures IsTrue(m.d, t, policies, s.hash)
    ensures var r, p := t.received[m.d.number], policies[t.received[m.d.number].at];
      && m.d.ruleId == OutcomeOf(p, r.input).ruleId && m.d.tier == OutcomeOf(p, r.input).tier
      && m.d.action == OutcomeOf(p, r.input).action
      && (r.input.OfSignal? ==>
            && m.d.subject == r.input.s.subjectId && m.d.tenant == r.input.s.tenant
            && m.d.suppressionKey == r.input.s.suppressionKey)
      && (r.input.OfMotif? ==>
            && r.input.m.members != [] && m.d.subject == r.input.m.members[0] && m.d.tenant == r.input.m.tenant
            && m.d.suppressionKey == Some(r.input.m.tenant + ":motif:" + r.input.m.motif + ":" + r.input.m.members[0]))
      && ((m.d.policyId, m.d.policyVersion, m.d.fingerprint) == StampOf(p, s.hash) <==>
            StampOf(policies[t.built[m.d.number]], s.hash) == StampOf(p, s.hash))
      && (t.built[m.d.number] == r.at ==> (m.d.policyId, m.d.policyVersion, m.d.fingerprint) == StampOf(p, s.hash))
  {
    hide Evaluate;
  }
}
