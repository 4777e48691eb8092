/** How a decision depends on the sender rows: not on their order, and never against a protected sender. */
module Fairness {
  import opened Words
  import opened Model
  import opened Collisions
  import opened Detect
  import opened Ranking
  import opened Authority
  import opened Classifier
  import opened Mitigate
  import opened Mitigation
  import opened Lifecycle
  import opened Governance
  import opened Dwell

  // ----- Order -----

  function Rearranged(r: SynthesisRequest, rows: seq<Sender>): SynthesisRequest {
    r.(bundle := r.bundle.(senders := rows))
  }

  lemma BaseForgetsRows(r: SynthesisRequest, rows: seq<Sender>)
    ensures Base(Rearranged(r, rows)) == Base(r) && IssuedAt(Rearranged(r, rows)) == IssuedAt(r)
  {
    hide Worst;
  }

  lemma RelaxForgetsRows(r: SynthesisRequest, rows: seq<Sender>, prior: MitigationIntent)
    ensures Relax(Rearranged(r, rows), prior) == Relax(r, prior)
  {
    hide ClampToBounds, RecoveryStep, RetiresNow, IssuedAt;
    BaseForgetsRows(r, rows);
  }

  lemma PlanForgetsRows(r: SynthesisRequest, rows: seq<Sender>, required: u64)
    ensures PlanOf(Rearranged(r, rows), required) == PlanOf(r, required)
  {
    hide Gather, ClampBp, ApplyBp, NeededBp;
  }

  lemma FinishForgetsRows(r: SynthesisRequest, rows: seq<Sender>, required: u64, plan: Plan)
    ensures Finish(Rearranged(r, rows), required, plan) == Finish(r, required, plan)
  {
    hide Base, ClampToBounds, RatioBp, ClampNanos;
    BaseForgetsRows(r, rows);
    assert Planned(Rearranged(r, rows), required, plan) == Planned(r, required, plan);
  }

  lemma SynthesisForgetsRows(r: SynthesisRequest, rows: seq<Sender>)
    ensures SynthesisOf(Rearranged(r, rows)) == SynthesisOf(r)
  {
    hide Base, Relax, PlanOf, Finish, RequiredReduction;
    var required := RequiredReduction(r.classification, r.policy);
    BaseForgetsRows(r, rows);
    PlanForgetsRows(r, rows, required);
    if PlanOf(r, required).Some? { FinishForgetsRows(r, rows, required, PlanOf(r, required).value); }
    if r.prior.Some? { RelaxForgetsRows(r, rows, r.prior.value); }
  }

  lemma ChecksForgetRows(b: Bundle, rows: seq<Sender>, p: Policy, last: seq<nat>)
    requires |b.senders| == |rows| && |p.authority.requiredClasses| == |last| == CLASSES
    ensures Check(b.(senders := rows), p, last) == Check(b, p, last)
  {
    hide FirstDenial;
    var d := b.(senders := rows);
    assert States(d, p, last, CLASSES) == States(b, p, last, CLASSES);
  }

  lemma GateForgetsRows(g: Gov, b: Bundle, rows: seq<Sender>)
    requires |b.senders| == |rows|
    ensures Gate(g, b.(senders := rows)) == Gate(g, b)
  {}

  lemma HeardForgetsRows(s: GovernorState, b: Bundle, rows: seq<Sender>)
    requires |s.lastSequence| == CLASSES
    ensures Heard(s, b.(senders := rows)) == Heard(s, b)
  {
    hide Advanced;
    var d := b.(senders := rows);
    assert Advanced(Reference(s, d), d, CLASSES) == Advanced(Reference(s, b), b, CLASSES);
  }

  lemma AdmittedRows(g: Gov, b: Bundle)
    requires Shaped(g) && Admits(g, b)
    ensures |b.senders| <= MAX_SENDERS
  {
    hide Check;
  }

  lemma VerdictForgetsOrder(g: Gov, b: Bundle, rows: seq<Sender>)
    requires Shaped(g) && multiset(rows) == multiset(b.senders) && |b.senders| <= MAX_SENDERS && KeysDistinct(b.senders)
    ensures Verdict(g, b.(senders := rows)) == Verdict(g, b)
  {
    hide ClassifyWindow, KeysDistinct, Collided;
    ClassificationForgetsOrder(b, b.(senders := rows), g.config.policy, ContextOf(g.state));
  }

  lemma EffectForgetsRows(g: Gov, b: Bundle, rows: seq<Sender>, c: Classification)
    ensures var d := b.(senders := rows);
      EffectOf(g, d, c, SynthesisOf(RequestFor(g, d, c))) == EffectOf(g, b, c, SynthesisOf(RequestFor(g, b, c)))
  {
    hide SynthesisOf, HeldByHysteresis, HeldRecord, ContinuedRecord, RecoveredRecord, RelaxedRecord, DroppedRecord;
    SynthesisForgetsRows(RequestFor(g, b, c), rows);
  }

  lemma ActForgetsOrder(g: Gov, b: Bundle, rows: seq<Sender>)
    requires Shaped(g) && multiset(rows) == multiset(b.senders) && KeysDistinct(b.senders) && Admits(g, b)
    ensures Act(g, b.(senders := rows)) == Act(g, b)
  {
    hide Verdict, KeysDistinct, Admits, Heard, EffectOf, SynthesisOf, TrimInterventions, TrimHistory, FenceReason;
    AdmittedRows(g, b);
    var d := b.(senders := rows);
    VerdictForgetsOrder(g, b, rows);
    HeardForgetsRows(g.state, b, rows);
    assert Listened(g, d) == Listened(g, b);
    EffectForgetsRows(g, b, rows, Verdict(g, b));
    assert LiveFence(g, d) == LiveFence(g, b);
    assert RecordOf(d, Verdict(g, b)) == RecordOf(b, Verdict(g, b));
  }

  /** ORDER.  With distinct keys, neither the decision nor the state it leaves depends on the order of the sender rows. */
  lemma DecisionsForgetOrder(g: Gov, b: Bundle, rows: seq<Sender>)
    requires Shaped(g) && multiset(rows) == multiset(b.senders) && KeysDistinct(b.senders)
    ensures Evaluate(g, b.(senders := rows)) == Evaluate(g, b)
  {
    hide Act, Gate, Check, KeysDistinct;
    assert |multiset(rows)| == |rows| && |multiset(b.senders)| == |b.senders|;
    GateForgetsRows(g, b, rows);
    ChecksForgetRows(b, rows, g.config.policy, Reference(g.state, b));
    if Admits(g, b) { ActForgetsOrder(g, b, rows); }
  }

  // ----- Protection -----

  /** The intent of the decision was synthesized from this window, not carried over by recovery or hysteresis. */
  predicate IsFresh(g: Gov, b: Bundle)
    requires Shaped(g)
  {
    var w, rs := FirstLive(g.state.interventions), g.state.interventions;
    Records(g, b) && IsIncident(Verdict(g, b).kind) && (w < |rs| ==> !HeldByHysteresis(rs[w], Verdict(g, b)))
  }

  lemma FreshDecision(g: Gov, b: Bundle)
    requires Shaped(g) && IsFresh(g, b) && Evaluate(g, b).1.authorized
    ensures var s := SynthesisOf(RequestFor(g, b, Verdict(g, b)));
      s.authorized && s.intent.penalized == Evaluate(g, b).1.intent.penalized
  {
    hide Verdict, Admits, SynthesisOf, Listened, Recorded, LiveFence, HeldByHysteresis;
    var c := Verdict(g, b);
    var s := SynthesisOf(RequestFor(g, b, c));
    assert EffectOf(g, b, c, s).authorized ==> s.authorized && EffectOf(g, b, c, s).intent.penalized == s.intent.penalized;
  }

  lemma ProtectionIsSpelledOut(rows: seq<Sender>, p: Policy)
    ensures forall r | r in rows && !IsProtected(r, p) ::
      && !(r.protectedObligation && p.protection.neverPenalizeExplicitlyProtected)
      && !Stronger(r.service, p.protection.strongestMitigableClass)
  {
    hide IsProtected, Stronger;
    forall r | r in rows { ProtectedExactlyWhen(r, p); }
  }

  /** PROTECTION.  A decision synthesized from a risk or active window penalizes each identity once, and none whose
      sender has a usable row with a protected obligation, of a class too strong to mitigate, or of another incarnation. */
  lemma DecisionsProtect(g: Gov, b: Bundle)
    requires Shaped(g) && IsFresh(g, b) && Evaluate(g, b).1.authorized
    ensures Distinct(Evaluate(g, b).1.intent.penalized)
    ensures forall id, row | id in Evaluate(g, b).1.intent.penalized && row in b.senders
                             && row.identity.Valid() && row.identity.sender == id.sender ::
      && !(row.protectedObligation && g.config.policy.protection.neverPenalizeExplicitlyProtected)
      && !Stronger(row.service, g.config.policy.protection.strongestMitigableClass)
      && row.identity.incarnation == id.incarnation
  {
    hide Evaluate, SynthesisOf, ClassifyWindow, IsProtected, Stronger, LiveFence, HeldByHysteresis, Collided, Distinct, Admits;
    FreshDecision(g, b);
    AdmittedRows(g, b);
    FreshPenalizesSafely(RequestFor(g, b, Verdict(g, b)), ContextOf(g.state));
    ProtectionIsSpelledOut(b.senders, g.config.policy);
  }
}
