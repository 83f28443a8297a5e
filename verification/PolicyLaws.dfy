/** What the policy column says, read off the log: the policy, its evaluations, its outcome and its quorum. */
module PolicyLaws {
  import opened Prelude
  import opened Events
  import opened Projection
  import opened RunLaws
  import opened Finality
  import opened Summaries
  import opened Quorum

  // ---- What single events say -----------------------------------------------------------------

  predicate Resolves(e: Event) { e.kind == PolicyResolved }
  predicate Evaluates(e: Event) { e.kind == PolicyCommitmentEvaluated }
  predicate Commits(e: Event) { e.kind == DecisionFinalized }

  function Version(e: Event): Option<string> {
    if !Resolves(e) then None
    else match e.data.decodedPayload
      case Some(p) => Some(if p.policyVersion.Some? then p.policyVersion.value else e.data.policyVersion.Or(""))
      case None => Some(e.data.policyVersion.Or(""))
  }

  function Description(e: Event): Option<string> {
    if !Resolves(e) then None
    else match e.data.decodedPayload case Some(p) => Some(p.description.Or("")) case None => Some("")
  }

  function Expected(e: Event): Option<seq<string>> { if e.kind == SessionBound then e.data.expectedCommitments else None }

  /** Said to be resolved: by an event that resolves the policy. */
  function ResolvedAt(e: Event): Option<Time> { if Resolves(e) then Some(e.ts) else None }

  function CommittedAt(e: Event): Option<Time> { if Commits(e) then Some(e.ts) else None }

  /** One evaluation: what it is about, its verdict (allow unless it says otherwise) and its reasons. */
  function Evaluation(e: Event): CommitmentEvaluation {
    match e.data.decodedPayload
    case Some(p) =>
      CommitmentEvaluation(if p.commitmentId.Some? then p.commitmentId.value else e.SubjectId().Or(""),
                           p.verdict.Or(Allow), p.reasons, e.ts)
    case None => CommitmentEvaluation(e.SubjectId().Or(""), Allow, [], e.ts)
  }

  /** The first value that is present. */
  function First<T>(f: Event -> Option<T>, es: seq<Event>): Option<T>
    decreases |es|
  {
    if es == [] then None else First(f, es[..|es| - 1]).OrElse(f(es[|es| - 1]))
  }

  // ---- The policy and its evaluations ---------------------------------------------------------

  lemma {:induction false} PolicyStepFields(p: Policy, ps: seq<Participant>, e: Event)
    ensures var q := StepPolicy(p, ps, e);
      && q.policyVersion == Version(e).Or(p.policyVersion)
      && q.policyDescription == Description(e).OrElse(p.policyDescription)
      && q.expectedCommitments == Expected(e).OrElse(p.expectedCommitments)
      && q.resolvedAt == ResolvedAt(e).OrElse(p.resolvedAt.OrElse(CommittedAt(e)))
      && q.outcomePositive == (if Commits(e) then Some(FinalOutcome(e)) else p.outcomePositive)
      && q.commitmentEvaluations == (if Evaluates(e) then Last(p.commitmentEvaluations + [Evaluation(e)], 50) else p.commitmentEvaluations)
  {}

  ghost predicate PolicyReads(es: seq<Event>, p: Policy) {
    && p.policyVersion == Latest(Version, es).Or("")
    && p.policyDescription == Latest(Description, es)
    && p.expectedCommitments == Latest(Expected, es)
    && p.resolvedAt == Latest(ResolvedAt, es).OrElse(First(CommittedAt, es))
    && p.outcomePositive == (if LastFinal(es).Some? then Some(FinalOutcome(es[LastFinal(es).value])) else None)
    && p.commitmentEvaluations == Last(Picked(Evaluates, Evaluation, es), 50)
  }

  lemma {:induction false} EvaluationsGrow(es: seq<Event>)
    requires es != []
    ensures var n := |es| - 1;
      Last(Picked(Evaluates, Evaluation, es), 50) ==
        if Evaluates(es[n]) then Last(Last(Picked(Evaluates, Evaluation, es[..n]), 50) + [Evaluation(es[n])], 50)
        else Last(Picked(Evaluates, Evaluation, es[..n]), 50)
  {
    var n := |es| - 1;
    var before := Picked(Evaluates, Evaluation, es[..n]);
    LastAppend(before, [Evaluation(es[n])], 50);
    assert before + [] == before;
  }

  lemma {:induction false} PolicyReadsOn(es: seq<Event>, p: Policy, ps: seq<Participant>)
    requires es != [] && PolicyReads(es[..|es| - 1], p)
    ensures PolicyReads(es, StepPolicy(p, ps, es[|es| - 1]))
  {
    PolicyStepFields(p, ps, es[|es| - 1]);
    EvaluationsGrow(es);
  }

  /**
   * The policy a run has resolved, what it expects, when it was resolved (by a policy event, or failing
   * that by the first commitment), the outcome of the last commitment, and its last 50 evaluations.
   */
  lemma {:induction false} PolicyOfTheLog(runId: string, es: seq<Event>)
    ensures PolicyReads(es, Apply(Empty(runId), es).cols.policy)
    decreases |es|
  {
    if es != [] {
      var n := |es| - 1;
      PolicyOfTheLog(runId, es[..n]);
      var before := Apply(Empty(runId), es[..n]);
      PolicyStep(runId, before, es[n]);
      PolicyReadsOn(es, before.cols.policy, before.cols.actors.participants);
    }
  }

  // ---- The quorum status ----------------------------------------------------------------------

  predicate Allows(e: Event) { Evaluates(e) && Evaluation(e).decision == Allow }

  /** A run's end, or a commitment: what decides the quorum if nothing has yet. */
  predicate Decides(e: Event) { e.kind in {RunFailed, RunCancelled, DecisionFinalized} }

  /** A vote on a proposal, or a session that expects commitments: what opens the quorum. */
  predicate Opens(e: Event) { VoteCast(e).Some? || (e.kind == SessionBound && e.data.expectedCommitments.Or([]) != []) }

  /** Index of the first element that satisfies `p`. */
  function FirstWhere<T>(p: T -> bool, s: seq<T>): (r: Option<nat>)
    ensures r.Some? ==> r.value < |s| && p(s[r.value]) && forall j :: 0 <= j < r.value ==> !p(s[j])
    ensures r.None? ==> forall j :: 0 <= j < |s| ==> !p(s[j])
    decreases |s|
  {
    if s == [] then None
    else
      var r := FirstWhere(p, s[..|s| - 1]);
      if r.Some? then r else if p(s[|s| - 1]) then Some(|s| - 1) else None
  }

  /** The quorum status of a log. */
  function QuorumRead(es: seq<Event>): Option<QuorumStatus> {
    if FirstWhere(Allows, es).Some? then Some(Reached)
    else match FirstWhere(Decides, es)
      case Some(i) => Some(if Commits(es[i]) && FinalOutcome(es[i]) != Some(false) then Reached else QuorumFailed)
      case None => if FirstWhere(Opens, es).Some? then Some(Pending) else None
  }

  lemma {:induction false} QuorumStep(p: Policy, ps: seq<Participant>, e: Event)
    ensures var q, before := StepPolicy(p, ps, e).quorumStatus, p.quorumStatus;
      && (Allows(e) ==> q == Some(Reached))
      && (Decides(e) && before in {None, Some(Pending)} ==>
            q == Some(if Commits(e) then (if FinalOutcome(e) == Some(false) then QuorumFailed else Reached)
                      else if exists c :: c in p.commitmentEvaluations && c.decision == Allow then Reached else QuorumFailed))
      && (Decides(e) && before !in {None, Some(Pending)} ==> q == before)
      && (Opens(e) && !Decides(e) && !Allows(e) ==> q == if before.None? then Some(Pending) else before)
      && (!Opens(e) && !Decides(e) && !Allows(e) ==> q == before)
  {}

  lemma {:induction false} NothingAllowed(es: seq<Event>, c: CommitmentEvaluation)
    requires FirstWhere(Allows, es).None? && c in Last(Picked(Evaluates, Evaluation, es), 50)
    ensures c.decision != Allow
  {
    PickedFrom(es, c);
  }

  lemma {:induction false} PickedFrom(es: seq<Event>, c: CommitmentEvaluation)
    requires c in Picked(Evaluates, Evaluation, es)
    ensures exists i :: 0 <= i < |es| && Evaluates(es[i]) && Evaluation(es[i]) == c
    decreases |es|
  {
    var n := |es| - 1;
    if es != [] {
      if c in Picked(Evaluates, Evaluation, es[..n]) {
        PickedFrom(es[..n], c);
        var i :| 0 <= i < n && Evaluates(es[..n][i]) && Evaluation(es[..n][i]) == c;
        assert Evaluates(es[i]);
      } else {
        assert Evaluates(es[n]);
      }
    }
  }

  lemma {:induction false} QuorumReadsOn(es: seq<Event>, p: Policy, ps: seq<Participant>)
    requires es != []
    requires p.quorumStatus == QuorumRead(es[..|es| - 1]) && PolicyReads(es[..|es| - 1], p)
    ensures StepPolicy(p, ps, es[|es| - 1]).quorumStatus == QuorumRead(es)
  {
    var n := |es| - 1;
    QuorumStep(p, ps, es[n]);
    if FirstWhere(Allows, es[..n]).None? {
      forall c | c in p.commitmentEvaluations ensures c.decision != Allow { NothingAllowed(es[..n], c); }
    }
  }

  /**
   * The quorum status of a run, exactly: reached once any evaluation allows; otherwise decided by the
   * first end or commitment (a commitment reaches it unless its outcome is negative, an end fails it);
   * otherwise pending once there is a vote or an expectation; otherwise unset.
   */
  lemma {:induction false} QuorumOfTheLog(runId: string, es: seq<Event>)
    ensures Apply(Empty(runId), es).cols.policy.quorumStatus == QuorumRead(es)
    decreases |es|
  {
    if es != [] {
      var n := |es| - 1;
      QuorumOfTheLog(runId, es[..n]);
      PolicyOfTheLog(runId, es[..n]);
      var before := Apply(Empty(runId), es[..n]);
      PolicyStep(runId, before, es[n]);
      QuorumReadsOn(es, before.cols.policy, before.cols.actors.participants);
    }
  }

  // ---- What a tally entry requires ------------------------------------------------------------

  predicate IsVoter(p: Participant) { p.role == Some("voter") }

  /** A vote on a commitment sets what it requires: the voters, or everybody if nobody is one; and half of that, rounded up. */
  lemma {:induction false} VoteRequires(p: Policy, ps: seq<Participant>, e: Event, id: string)
    requires FindTally(p.voteTally, id) < |p.voteTally| || (VoteCast(e).Some? && ProposalIdOf(e) == id)
    ensures var entry := EntryFor(StepPolicy(p, ps, e).voteTally, id);
      if VoteCast(e).Some? && ProposalIdOf(e) == id then
        && entry.required == (if Count(IsVoter, ps) > 0 then Count(IsVoter, ps) else |ps|)
        && entry.required <= 2 * entry.threshold <= entry.required + 1
      else entry == EntryFor(p.voteTally, id)
  {
    TallyStep(p, ps, e);
    CountVoters(ps);
    if VoteCast(e).Some? {
      var r := BumpTally(p.voteTally, ProposalIdOf(e), VoteCast(e).value, RequiredVotes(ps));
      var i := FindTally(p.voteTally, ProposalIdOf(e));
      if ProposalIdOf(e) == id { FindTallyIs(r, id, i); } else { FindTallyIs(r, id, FindTally(p.voteTally, id)); }
    }
  }

  lemma {:induction false} CountVoters(ps: seq<Participant>)
    ensures |Filter((p: Participant) => p.role == Some("voter"), ps)| == Count(IsVoter, ps)
    decreases |ps|
  {
    if ps != [] { CountVoters(ps[..|ps| - 1]); }
  }
}
