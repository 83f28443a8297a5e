/** A committed decision stays committed, whatever proposals and votes arrive or are replayed later. */
module Finality {
  import opened Prelude
  import opened Events
  import opened Projection

  /** The part of a decision that says how it was settled. */
  datatype Ruling = Ruling(
    action: string, confidence: Option<real>, reasons: seq<string>, proposalId: Option<string>,
    outcomePositive: Option<Option<bool>>, resolvedAt: Option<Time>, resolvedBy: Option<string>,
    supersedes: Option<Supersedes>)

  function RulingOf(d: Decision): Ruling {
    Ruling(d.action, d.confidence, d.reasons, d.proposalId, d.outcomePositive, d.resolvedAt, d.resolvedBy, d.supersedes)
  }

  predicate Settled(d: Option<Decision>) { d.Some? && d.value.finalized }

  /** Index of the last `decision.finalized` event. */
  function LastFinal(es: seq<Event>): (r: Option<nat>)
    ensures r.Some? ==> r.value < |es| && es[r.value].kind.DecisionFinalized?
    ensures forall j :: (if r.Some? then r.value + 1 else 0) <= j < |es| ==> !es[j].kind.DecisionFinalized?
    decreases |es|
  {
    if es == [] then None
    else if es[|es| - 1].kind.DecisionFinalized? then Some(|es| - 1)
    else LastFinal(es[..|es| - 1])
  }

  /** The reference carried by the last `decision.finalized` event that carries one. */
  function LastSupersedes(es: seq<Event>): Option<Supersedes>
    decreases |es|
  {
    if es == [] then None
    else
      var e := es[|es| - 1];
      if e.kind.DecisionFinalized? && FinalSupersedes(e).Some? then FinalSupersedes(e)
      else LastSupersedes(es[..|es| - 1])
  }

  function Contributions(es: seq<Event>): seq<Contribution>
    decreases |es|
  {
    if es == [] then []
    else
      var e := es[|es| - 1];
      Contributions(es[..|es| - 1]) + if IsProposal(e) then [ContributionOf(e)] else []
  }

  function Decide(d: Option<Decision>, es: seq<Event>): Option<Decision> { Foldl(StepDecision, d, es) }

  lemma {:induction false} DecisionColumn(base: string, s: State, es: seq<Event>)
    ensures Fold(base, s, es).cols.decision == Decide(s.cols.decision, es)
  {
    FoldlProject(Stepper(base), StepDecision, (s: State) => s.cols.decision, s, es);
  }

  /** No event other than a finalization changes a settled ruling. */
  lemma {:induction false} SettledStep(d: Option<Decision>, e: Event)
    requires Settled(d) && !e.kind.DecisionFinalized?
    ensures Settled(StepDecision(d, e)) && RulingOf(StepDecision(d, e).value) == RulingOf(d.value)
  {}

  lemma {:induction false} SettledKept(d: Option<Decision>, es: seq<Event>)
    requires forall j :: 0 <= j < |es| ==> !es[j].kind.DecisionFinalized?
    ensures Settled(Decide(d, es)) == Settled(d)
    ensures Settled(d) ==> RulingOf(Decide(d, es).value) == RulingOf(d.value)
    ensures Decide(d, es).Or(BLANK_DECISION).supersedes == d.Or(BLANK_DECISION).supersedes
    decreases |es|
  {
    if es != [] {
      var n := |es| - 1;
      SettledKept(d, es[..n]);
      if Settled(d) {
        SettledStep(Decide(d, es[..n]), es[n]);
      }
    }
  }

  lemma {:induction false} SupersedesSticks(d: Option<Decision>, es: seq<Event>)
    ensures Decide(d, es).Or(BLANK_DECISION).supersedes == LastSupersedes(es).OrElse(d.Or(BLANK_DECISION).supersedes)
    decreases |es|
  {
    if es != [] {
      SupersedesSticks(d, es[..|es| - 1]);
    }
  }

  /** The contribution table is the last 50 contributions, before and after the decision is settled. */
  lemma {:induction false} ContributionWindow(d: Option<Decision>, es: seq<Event>)
    requires |d.Or(BLANK_DECISION).proposals| <= PROPOSAL_WINDOW
    ensures Decide(d, es).Or(BLANK_DECISION).proposals
         == Last(d.Or(BLANK_DECISION).proposals + Contributions(es), PROPOSAL_WINDOW)
    decreases |es|
  {
    var start := d.Or(BLANK_DECISION).proposals;
    if es == [] {
      assert start + [] == start;
    } else {
      var n := |es| - 1;
      ContributionWindow(d, es[..n]);
      if IsProposal(es[n]) {
        LastAppend(start + Contributions(es[..n]), [ContributionOf(es[n])], PROPOSAL_WINDOW);
        assert start + Contributions(es[..n]) + [ContributionOf(es[n])] == start + Contributions(es);
      } else {
        assert Contributions(es[..n]) + [] == Contributions(es[..n]);
      }
    }
  }

  /** The decision is settled the way this finalization says. */
  ghost predicate RuledBy(d: Option<Decision>, e: Event) {
    && Settled(d) && d.value.action == FinalAction(e) && d.value.outcomePositive == Some(FinalOutcome(e))
    && d.value.reasons == FinalReasons(e) && d.value.resolvedBy == e.data.sender && d.value.resolvedAt == Some(e.ts)
  }

  lemma {:induction false} FinalStep(d: Option<Decision>, e: Event)
    requires e.kind.DecisionFinalized?
    ensures RuledBy(StepDecision(d, e), e)
  {}

  lemma {:induction false} RuledThen(d: Option<Decision>, es: seq<Event>, i: nat)
    requires i < |es| && es[i].kind.DecisionFinalized?
    ensures RuledBy(Decide(d, es[..i + 1]), es[i])
  {
    var upTo := es[..i + 1];
    assert upTo[..i] == es[..i] && upTo[i] == es[i];
    FinalStep(Decide(d, es[..i]), es[i]);
  }

  lemma {:induction false} KeptSince(d: Option<Decision>, es: seq<Event>, i: nat)
    requires LastFinal(es) == Some(i) && Settled(Decide(d, es[..i + 1]))
    ensures Settled(Decide(d, es)) && RulingOf(Decide(d, es).value) == RulingOf(Decide(d, es[..i + 1]).value)
  {
    var upTo, after := es[..i + 1], es[i + 1..];
    assert es == upTo + after && forall j :: 0 <= j < |after| ==> after[j] == es[i + 1 + j];
    FoldlAppend(StepDecision, d, upTo, after);
    SettledKept(Decide(d, upTo), after);
  }

  /**
   * Over every event sequence and from every state: the decision is settled exactly when it was
   * settled already or some `decision.finalized` arrived, and the whole ruling is then the one the
   * last such event produced, untouched by everything after it.
   */
  lemma {:induction false} DecisionFinality(base: string, s: State, es: seq<Event>)
    ensures var d := Fold(base, s, es).cols.decision;
            match LastFinal(es)
            case Some(i) => RuledBy(d, es[i]) && RulingOf(d.value) == RulingOf(Decide(s.cols.decision, es[..i + 1]).Or(BLANK_DECISION))
            case None =>
              && Settled(d) == Settled(s.cols.decision)
              && (Settled(d) ==> RulingOf(d.value) == RulingOf(s.cols.decision.value))
  {
    DecisionColumn(base, s, es);
    match LastFinal(es)
    case None =>
      SettledKept(s.cols.decision, es);
    case Some(i) =>
      RuledThen(s.cols.decision, es, i);
      KeptSince(s.cols.decision, es, i);
  }

  /**
   * `supersedes` is the exception among the settled fields: a later commitment without a
   * reference keeps the earlier one's.  It is the last commitment's own exactly when that
   * commitment carries one or no earlier one did.
   */
  lemma {:induction false} SupersedesIsCurrentIff(runId: string, es: seq<Event>, i: nat)
    requires LastFinal(es) == Some(i)
    ensures var d := Apply(Empty(runId), es).cols.decision;
            && Settled(d)
            && (d.value.supersedes == FinalSupersedes(es[i])
                <==> FinalSupersedes(es[i]).Some? || LastSupersedes(es[..i]).None?)
  {
    DecisionFinality(runId, Empty(runId), es);
    SupersedesSticks(None, es[..i + 1]);
    assert es[..i + 1][..i] == es[..i];
  }
}
