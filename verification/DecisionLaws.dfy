/** What the decision column says while it is open, what a commitment adds, and where its confidence comes from. */
module DecisionLaws {
  import opened Prelude
  import opened Events
  import opened Projection
  import opened Finality
  import opened RunLaws
  import opened Words

  predicate Proposes(e: Event) { e.kind in {ProposalCreated, ProposalUpdated} }

  function Prompt(e: Event): Option<string> { if e.kind == RunCreated then e.data.decisionPrompt else None }

  /** An event that says something about a decision. */
  predicate Speaks(e: Event) { Proposes(e) || e.kind == DecisionFinalized || Prompt(e).Some? }

  /** The proposal an event is about: what its payload names, else its subject. */
  function About(e: Event): string {
    match e.data.decodedPayload
    case Some(p) =>
      if p.proposalId.Some? then p.proposalId.value
      else if p.requestId.Some? then p.requestId.value
      else e.SubjectId().Or("")
    case None => e.SubjectId().Or("")
  }

  /** What an open decision is called, and why, while this proposal is the latest. */
  ghost predicate OpenedBy(d: Decision, e: Event) {
    && d.proposalId == Some(About(e))
    && d.action == (if About(e) != "" then About(e) else if e.subject.Some? then e.subject.value.id else "proposal")
    && d.reasons == Filter((s: string) => s != "", [ReasonOf(e)])
  }

  /** The first of reason, summary and rationale that is there, even if empty; else the event's type. */
  function ReasonOf(e: Event): string {
    match e.data.decodedPayload
    case Some(p) =>
      if p.reason.Some? then p.reason.value
      else if p.summary.Some? then p.summary.value
      else if p.rationale.Some? then p.rationale.value
      else TypeText(e)
    case None => TypeText(e)
  }

  function TypeText(e: Event): string { if e.kind == ProposalCreated then "proposal.created" else "proposal.updated" }

  lemma {:induction false} OpenStep(d: Option<Decision>, e: Event)
    requires Proposes(e) && !Settled(d)
    ensures !Settled(StepDecision(d, e)) && StepDecision(d, e).Some? && OpenedBy(StepDecision(d, e).value, e)
  {
    NamesRead(e);
    StepOpens(d, e);
  }

  lemma {:induction false} NamesRead(e: Event)
    requires Proposes(e)
    ensures ProposalIdOf(e) == About(e) && ProposalReasons(e) == Filter((s: string) => s != "", [ReasonOf(e)])
    ensures ProposalAction(e) == if About(e) != "" then About(e) else if e.subject.Some? then e.subject.value.id else "proposal"
  {
    FilterOne((s: string) => s != "", ReasonOf(e));
  }

  lemma {:induction false} StepOpens(d: Option<Decision>, e: Event)
    requires Proposes(e) && !Settled(d)
    ensures var r := StepDecision(d, e);
      && r.Some? && !r.value.finalized && r.value.prompt == d.Or(BLANK_DECISION).prompt
      && r.value.proposalId == Some(ProposalIdOf(e)) && r.value.action == ProposalAction(e)
      && r.value.reasons == ProposalReasons(e)
  {}

  /**
   * Before any commitment the decision is called after the latest proposal; without one, it has at most
   * a prompt.
   */
  lemma {:induction false} OpenDecision(es: seq<Event>)
    requires LastFinal(es).None?
    ensures OpenReads(es, Decide(None, es))
    decreases |es|
  {
    if es != [] {
      var n := |es| - 1;
      OpenDecision(es[..n]);
      OpenReadsOn(es, Decide(None, es[..n]));
    }
  }

  ghost predicate OpenReads(es: seq<Event>, d: Option<Decision>) {
    var i := LastWhere(Proposes, es);
    && !Settled(d)
    && if i.Some? then d.Some? && OpenedBy(d.value, es[i.value]) else d.Or(BLANK_DECISION).(prompt := None) == BLANK_DECISION
  }

  lemma {:induction false} OpenReadsOn(es: seq<Event>, d: Option<Decision>)
    requires es != [] && OpenReads(es[..|es| - 1], d) && es[|es| - 1].kind != DecisionFinalized
    ensures OpenReads(es, StepDecision(d, es[|es| - 1]))
  {
    var e := es[|es| - 1];
    if Proposes(e) { OpenStep(d, e); } else { PromptOnly(d, e); }
  }

  lemma {:induction false} PromptOnly(d: Option<Decision>, e: Event)
    requires !Proposes(e) && e.kind != DecisionFinalized
    ensures var b, r := d.Or(BLANK_DECISION), StepDecision(d, e).Or(BLANK_DECISION);
      r == b.(prompt := Prompt(e).OrElse(b.prompt)) && (StepDecision(d, e).Some? <==> d.Some? || Prompt(e).Some?)
  {}

  lemma {:induction false} PromptStep(d: Option<Decision>, e: Event)
    ensures StepDecision(d, e).Or(BLANK_DECISION).prompt == Prompt(e).OrElse(d.Or(BLANK_DECISION).prompt)
    ensures StepDecision(d, e).Some? <==> d.Some? || Speaks(e)
  {}

  lemma {:induction false} PromptOfTheLog(es: seq<Event>)
    ensures var d := Decide(None, es);
      && (d.Some? <==> exists i :: 0 <= i < |es| && Speaks(es[i]))
      && d.Or(BLANK_DECISION).prompt == Latest(Prompt, es)
    decreases |es|
  {
    if es != [] {
      var n := |es| - 1;
      PromptOfTheLog(es[..n]);
      SpeaksStep(es);
      PromptStep(Decide(None, es[..n]), es[n]);
    }
  }

  lemma {:induction false} SpeaksStep(es: seq<Event>)
    requires es != []
    ensures var n := |es| - 1;
      (exists i :: 0 <= i <= n && Speaks(es[i])) <==> Speaks(es[n]) || exists i :: 0 <= i < n && Speaks(es[..n][i])
  {
    var n := |es| - 1;
    if i :| 0 <= i < n && Speaks(es[..n][i]) { assert Speaks(es[i]); }
    if i :| 0 <= i <= n && Speaks(es[i]) {
      if i < n { assert Speaks(es[..n][i]); }
    }
  }

  /** Confidence named outright. */
  function Named(e: Event): Option<real> {
    if e.data.decodedPayload.Some? then e.data.decodedPayload.value.confidence else None
  }

  /**
   * Where the confidence comes from.  An open decision takes the share of approvals among the votes so
   * far (the new one included), else what the proposal names, else what it had; a commitment takes what
   * it names, else that share, else what was there; nothing else touches it.
   */
  ghost predicate ConfidenceFrom(before: Option<Decision>, e: Event, after: Option<Decision>) {
    var d, d' := before.Or(BLANK_DECISION), after.Or(BLANK_DECISION);
    if Proposes(e) && !d.finalized then
      exists share :: IsShare(d.proposals + [ContributionOf(e)], share) && d'.confidence == share.OrElse(Named(e)).OrElse(d.confidence)
    else if e.kind == DecisionFinalized then
      exists share :: IsShare(d.proposals, share) && d'.confidence == Named(e).OrElse(share).OrElse(d.confidence)
    else d'.confidence == d.confidence
  }

  /** The proposal a commitment settles: the one it names, else the open one. */
  ghost predicate SettlesOn(before: Option<Decision>, e: Event, after: Option<Decision>) {
    e.kind == DecisionFinalized && after.Some? ==>
      after.value.proposalId ==
        if e.data.decodedPayload.Some? && e.data.decodedPayload.value.commitmentId.Some?
        then e.data.decodedPayload.value.commitmentId
        else Some(before.Or(BLANK_DECISION).proposalId.Or(""))
  }

  lemma {:induction false} ConfidenceStep(d: Option<Decision>, e: Event)
    ensures ConfidenceFrom(d, e, StepDecision(d, e)) && SettlesOn(d, e, StepDecision(d, e))
  {
    var b := d.Or(BLANK_DECISION);
    RatioIsShare(b.proposals + [ContributionOf(e)]);
    RatioIsShare(b.proposals);
  }

  /** At every event of every log. */
  lemma {:induction false} ConfidenceOfTheLog(runId: string, es: seq<Event>, k: nat)
    requires k < |es|
    ensures var before, after := Apply(Empty(runId), es[..k]).cols.decision, Apply(Empty(runId), es[..k + 1]).cols.decision;
      ConfidenceFrom(before, es[k], after) && SettlesOn(before, es[k], after)
  {
    assert es[..k + 1][..k] == es[..k];
    DecisionColumn(runId, Empty(runId), es[..k]);
    DecisionColumn(runId, Empty(runId), es[..k + 1]);
    ConfidenceStep(Decide(None, es[..k]), es[k]);
  }

  /**
   * The decision column of a run's projection: there is a decision once something speaks of one, its
   * prompt is the latest a run was created with, and so on as above.
   */
  lemma {:induction false} DecisionOfTheLog(runId: string, es: seq<Event>)
    ensures var d := Apply(Empty(runId), es).cols.decision;
      && (d.Some? <==> exists i :: 0 <= i < |es| && Speaks(es[i]))
      && d.Or(BLANK_DECISION).prompt == Latest(Prompt, es)
      && (LastFinal(es).None? ==>
            && !Settled(d)
            && (LastWhere(Proposes, es).Some? ==> OpenedBy(d.Or(BLANK_DECISION), es[LastWhere(Proposes, es).value])))
      && d.Or(BLANK_DECISION).proposals == Last(Contributions(es), 50)
  {
    DecisionColumn(runId, Empty(runId), es);
    PromptOfTheLog(es);
    if LastFinal(es).None? { OpenDecision(es); }
    ContributionWindow(None, es);
    assert [] + Contributions(es) == Contributions(es);
  }
}
