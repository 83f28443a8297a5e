/**
 * The branches of `applyEvents` that loop: each is written as the source writes it, updating local
 * lists step by step, and proved to take exactly the step of the columns it touches.
 */
module Branches {
  import opened Prelude
  import opened Events
  import opened Projection

  // ---- Participants and nodes -----------------------------------------------------------------

  lemma {:induction false} FoundLast(ps: seq<Participant>, p: Participant)
    requires FindParticipant(ps, p.participantId) == |ps|
    ensures FindParticipant(ps + [p], p.participantId) == |ps|
    decreases |ps|
  {
    if ps != [] {
      assert (ps + [p])[1..] == ps[1..] + [p];
      FoundLast(ps[1..], p);
    }
  }

  /** Find the participant, or add it together with its node. */
  method DeclareParticipant(a: Actors, id: string) returns (r: Actors, i: nat)
    ensures r == Declare(a, id) && i < |r.participants| && i == FindParticipant(r.participants, id)
  {
    r, i := a, FindParticipant(a.participants, id);
    if i == |a.participants| {
      var p := Participant(id, None, Idle, None, None);
      FoundLast(a.participants, p);
      r := Actors(a.participants + [p], a.nodes + [Node(id, "participant", Idle)]);
    }
  }

  /** Note the activity; unless the run and the participant have both ended, set its status and its node's. */
  method NoteActivity(a: Actors, run: RunStatus, i: nat, ts: Time, status: ActorStatus, summary: Option<string>)
    returns (r: Actors)
    requires i < |a.participants|
    ensures r == TouchKnown(a, run, i, ts, status, summary)
  {
    var p := a.participants[i];
    var ended := run.Terminal() && p.status.Terminal();
    p := p.(latestActivityAt := Some(ts));
    if Truthy(summary) {
      p := p.(latestSummary := summary);
    }
    if ended { return a.(participants := a.participants[i := p]); }
    p := p.(status := status);
    var ns := a.nodes;
    var j := FindNode(ns, p.participantId);
    if j < |ns| {
      ns := ns[j := ns[j].(status := status)];
    }
    return Actors(a.participants[i := p], ns);
  }

  method TouchParticipant(a: Actors, run: RunStatus, id: string, ts: Time, status: ActorStatus, summary: Option<string>)
    returns (r: Actors)
    ensures r == Touch(a, run, id, ts, status, summary)
  {
    if id == "" { return a; }
    var declared, i := DeclareParticipant(a, id);
    r := NoteActivity(declared, run, i, ts, status, summary);
  }

  /** `recipients.forEach(touchParticipant)`. */
  method TouchEach(a: Actors, run: RunStatus, ids: seq<string>, ts: Time) returns (r: Actors)
    ensures r == TouchAll(a, run, ids, ts)
  {
    r := a;
    var i := 0;
    while i < |ids|
      invariant i <= |ids| && TouchAll(r, run, ids[i..], ts) == TouchAll(a, run, ids, ts)
    {
      r := TouchParticipant(r, run, ids[i], ts, Waiting, None);
      assert ids[i..][1..] == ids[i + 1..];
      i := i + 1;
    }
  }

  /** `.filter((p) => p !== sender)`. */
  method Others(ids: seq<string>, sender: string) returns (r: seq<string>)
    ensures r == Filter(s => s != sender, ids)
  {
    r := [];
    var i := 0;
    while i < |ids|
      invariant i <= |ids| && r == Filter(s => s != sender, ids[..i])
    {
      assert ids[..i + 1][..i] == ids[..i];
      if ids[i] != sender { r := r + [ids[i]]; }
      i := i + 1;
    }
    assert ids[..i] == ids;
  }

  // ---- Edges ----------------------------------------------------------------------------------

  method UpsertEach(es: seq<Edge>, from: string, tos: seq<string>, kind: string, ts: Time) returns (r: seq<Edge>)
    ensures r == UpsertFan(es, from, tos, kind, ts)
  {
    r := es;
    var i := 0;
    while i < |tos|
      invariant i <= |tos| && UpsertFan(r, from, tos[i..], kind, ts) == UpsertFan(es, from, tos, kind, ts)
    {
      if from != "" && tos[i] != "" && from != tos[i] {
        var j := FindEdge(r, from, tos[i], kind);
        if j < |r| {
          r := r[j := r[j].(ts := ts)];
        } else {
          r := r + [Edge(from, tos[i], kind, ts)];
        }
      }
      assert tos[i..][1..] == tos[i + 1..];
      i := i + 1;
    }
  }

  /** The edges of a sent message, pushed without looking for an existing one. */
  method PushEach(es: seq<Edge>, from: string, tos: seq<string>, kind: string, ts: Time) returns (r: seq<Edge>)
    ensures r == PushFan(es, from, tos, kind, ts)
  {
    r := es;
    var i := 0;
    while i < |tos|
      invariant i <= |tos| && r == PushFan(es, from, tos[..i], kind, ts)
    {
      PushOne(es, from, tos, i, kind, ts);
      if from != "" && tos[i] != "" {
        r := r + [Edge(from, tos[i], kind, ts)];
      }
      i := i + 1;
    }
    assert tos[..i] == tos;
  }

  lemma {:induction false} PushOne(es: seq<Edge>, from: string, tos: seq<string>, i: nat, kind: string, ts: Time)
    requires i < |tos|
    ensures PushFan(es, from, tos[..i + 1], kind, ts)
         == PushFan(es, from, tos[..i], kind, ts) + if from != "" && tos[i] != "" then [Edge(from, tos[i], kind, ts)] else []
  {
    assert tos[..i + 1][..i] == tos[..i];
    var named := Filter(to => to != "", tos[..i]);
    var edge := to => Edge(from, to, kind, ts);
    if from != "" && tos[i] != "" {
      MapIndex(edge, named);
      MapIndex(edge, named + [tos[i]]);
      assert Map(edge, named + [tos[i]]) == Map(edge, named) + [Edge(from, tos[i], kind, ts)];
      assert es + (Map(edge, named) + [Edge(from, tos[i], kind, ts)]) == (es + Map(edge, named)) + [Edge(from, tos[i], kind, ts)];
    } else {
      assert named + [] == named;
    }
  }

  // ---- The message branches -------------------------------------------------------------------

  method SendTouches(a: Actors, run: RunStatus, e: Event) returns (actors: Actors)
    requires e.kind.MessageSent?
    ensures actors == StepActors(a, run, e)
  {
    var text := if e.data.messageType.Some? then e.data.messageType.value.Text() else "message.sent";
    actors := TouchParticipant(a, run, Sender(e), e.ts, Active, Some(text));
    actors := TouchEach(actors, run, e.data.to, e.ts);
  }

  method SendEdges(es: seq<Edge>, declared: seq<string>, e: Event) returns (edges: seq<Edge>)
    requires e.kind.MessageSent?
    ensures edges == StepEdges(es, declared, e)
  {
    edges := PushEach(es, Sender(e), e.data.to, "message.sent", e.ts);
    edges := Last(edges, 200);
  }

  /** Whom a message reaches: `to`, else the roster of a SessionStart, else everyone declared for a Proposal. */
  method RecipientsOf(e: Event, declared: seq<string>) returns (recipients: seq<string>)
    ensures recipients == Recipients(e, declared)
  {
    var sender, m := Sender(e), MessageTypeOf(e);
    recipients := e.data.to;
    if |recipients| == 0 && m.SessionStart? {
      var p := e.data.decodedPayload.OrElse(e.data.payload);
      if p.Some? {
        recipients := Others(p.value.participants, sender);
      }
    } else if |recipients| == 0 && m.Proposal? {
      recipients := Others(declared, sender);
    }
  }

  /** The lifecycle nodes and edges of one message, in the order the source adds them. */
  method AddLifecycle(ns: seq<Node>, es: seq<Edge>, m: MessageType, sender: string, recipients: seq<string>, ts: Time)
    returns (nodes: seq<Node>, edges: seq<Edge>)
    ensures nodes == LifecycleNodes(ns, m) && edges == LifecycleEdges(es, m, sender, recipients, ts)
  {
    nodes, edges := UpsertNode(ns, START_NODE), es;
    if m.SessionStart? {
      edges := UpsertEdge(edges, "__start", sender, "session.bound", ts);
      edges := UpsertEach(edges, sender, recipients, "fanout", ts);
    } else if m.Proposal? {
      nodes := UpsertNode(nodes, PROPOSAL_NODE);
      edges := UpsertEdge(edges, sender, "__proposal", "proposes", ts);
      edges := UpsertEach(edges, "__proposal", recipients, "review", ts);
    } else if m.VoteMessage? || m.Evaluation? || m.Objection? {
      nodes := UpsertNode(nodes, DECISION_ACTIVE);
      edges := UpsertEdge(edges, sender, "__decision", Lower(m.Text()), ts);
    } else if m.Commitment? {
      nodes := UpsertNode(nodes, DECISION_DONE);
      nodes := UpsertNode(nodes, OUTCOME_NODE);
      edges := UpsertEdge(edges, "__decision", "__outcome", "commits", ts);
    }
  }

  /** The `message.received` branch: touches, lifecycle nodes and edges, direct edges, trim. */
  method ReceiveMessage(a: Actors, es: seq<Edge>, run: RunStatus, e: Event) returns (actors: Actors, edges: seq<Edge>)
    requires e.kind.MessageReceived?
    ensures actors == StepActors(a, run, e) && edges == StepEdges(es, Declared(a, run, e), e)
  {
    var sender, text := Sender(e), MessageText(e, "message.received");
    actors := TouchParticipant(a, run, sender, e.ts, Active, Some(text));
    var declared := ParticipantIds(actors.participants);
    var recipients := RecipientsOf(e, declared);
    actors := TouchEach(actors, run, recipients, e.ts);
    var nodes;
    nodes, edges := AddLifecycle(actors.nodes, es, MessageTypeOf(e), sender, recipients, e.ts);
    actors := actors.(nodes := nodes);
    edges := UpsertEach(edges, sender, recipients, text, e.ts);
    edges := Last(edges, 300);
  }

  // ---- Proposals, votes and commitments -------------------------------------------------------

  /** The vote-bearing contributions and the approvals among them. */
  method CountBallots(all: seq<Contribution>) returns (votes: nat, approvals: nat)
    ensures approvals == CountVotes(all, Allow) && votes == CountVotes(all, Allow) + CountVotes(all, Deny)
  {
    votes, approvals := 0, 0;
    var i := 0;
    while i < |all|
      invariant i <= |all| && approvals == CountVotes(all[..i], Allow)
        && votes == approvals + CountVotes(all[..i], Deny)
    {
      assert all[..i + 1][..i] == all[..i];
      if all[i].vote.Some? {
        votes := votes + 1;
        if all[i].vote.value.Allow? { approvals := approvals + 1; }
      }
      i := i + 1;
    }
    assert all[..i] == all;
  }

  /** The share of approvals among the votes, if there are any. */
  method Ratio(all: seq<Contribution>) returns (ratio: Option<real>)
    ensures ratio == ApproveRatio(all)
  {
    var votes, approvals := CountBallots(all);
    ratio := if votes > 0 then Some(approvals as real / votes as real) else None;
  }

  method Propose(current: Option<Decision>, e: Event) returns (next: Decision)
    requires IsProposal(e)
    ensures Some(next) == StepDecision(current, e)
  {
    var payload, d := e.data.decodedPayload, current.Or(BLANK_DECISION);
    var explicit := if payload.Some? then payload.value.confidence else None;
    var proposalId := ProposalIdOf(e);
    var all := d.proposals + [ContributionOf(e)];
    var ratio := Ratio(all);
    var aggregate := if ratio.Some? then ratio else explicit.OrElse(d.confidence);
    next := d.(proposals := Last(all, PROPOSAL_WINDOW));
    if !d.finalized {
      var reason := if payload.Some? then payload.value.reason.OrElse(payload.value.summary).OrElse(payload.value.rationale) else None;
      var text := reason.Or(if e.kind.ProposalCreated? then "proposal.created" else "proposal.updated");
      next := next.(action := if proposalId != "" then proposalId else e.SubjectId().Or("proposal"));
      next := next.(confidence := aggregate, reasons := if text == "" then [] else [text], proposalId := Some(proposalId));
    }
  }

  method Finalize(current: Option<Decision>, e: Event) returns (next: Decision)
    requires e.kind.DecisionFinalized?
    ensures Some(next) == StepDecision(current, e)
  {
    var payload, d := e.data.decodedPayload, current.Or(BLANK_DECISION);
    var computed := Ratio(d.proposals);
    next := d.(action := if payload.Some? then payload.value.action.Or("resolved") else "resolved");
    next := next.(confidence := (if payload.Some? then payload.value.confidence else None).OrElse(computed).OrElse(d.confidence));
    next := next.(reasons := [if payload.Some? then payload.value.reason.Or("Commitment observed") else "Commitment observed"]);
    next := next.(finalized := true, outcomePositive := Some(FinalOutcome(e)), resolvedAt := Some(e.ts), resolvedBy := e.data.sender);
    next := next.(proposalId := Some((if payload.Some? then payload.value.commitmentId else None).OrElse(d.proposalId).Or("")));
    var supersedes := ExtractSupersedes(if payload.Some? then payload.value.supersedes else None);
    if supersedes.Some? {
      next := next.(supersedes := supersedes);
    }
  }

  /** `bumpVoteTally`: find or add the entry, count, and rederive what the quorum needs. */
  method BumpVoteTally(p: Policy, participants: seq<Participant>, id: string, vote: Verdict) returns (next: Policy)
    ensures next.voteTally == BumpTally(p.voteTally, id, vote, RequiredVotes(participants))
    ensures next == p.(voteTally := next.voteTally, quorumStatus := if Undecided(p.quorumStatus) then Some(Pending) else p.quorumStatus)
  {
    var tally := p.voteTally;
    var i := FindTally(tally, id);
    if i == |tally| {
      tally := tally + [TallyEntry(id, 0, 0, 0, 0, 0)];
    }
    if vote.Allow? {
      tally := tally[i := tally[i].(allow := tally[i].allow + 1)];
    } else {
      tally := tally[i := tally[i].(deny := tally[i].deny + 1)];
    }
    tally := tally[i := tally[i].(cast := tally[i].allow + tally[i].deny)];
    var voters := CountVoters(participants);
    var required := if voters > 0 then voters else |participants|;
    tally := tally[i := tally[i].(required := required, threshold := (required + 1) / 2)];
    next := p.(voteTally := tally);
    if Undecided(p.quorumStatus) {
      next := next.(quorumStatus := Some(Pending));
    }
  }

  method CountVoters(participants: seq<Participant>) returns (voters: nat)
    ensures voters == |Filter((p: Participant) => p.role == Some("voter"), participants)|
  {
    voters := 0;
    var i := 0;
    while i < |participants|
      invariant i <= |participants|
        && voters == |Filter((p: Participant) => p.role == Some("voter"), participants[..i])|
    {
      assert participants[..i + 1][..i] == participants[..i];
      if participants[i].role == Some("voter") { voters := voters + 1; }
      i := i + 1;
    }
    assert participants[..i] == participants;
  }

  method ProposePolicy(p: Policy, participants: seq<Participant>, e: Event) returns (next: Policy)
    requires IsProposal(e)
    ensures next == StepPolicy(p, participants, e)
  {
    var vote, id := InferVote(MessageTypeOf(e), e.data.decodedPayload), ProposalIdOf(e);
    next := p;
    if vote.Some? && id != "" {
      next := BumpVoteTally(p, participants, id, vote.value);
    }
  }

  method FinalizePolicy(p: Policy, participants: seq<Participant>, e: Event) returns (next: Policy)
    requires e.kind.DecisionFinalized?
    ensures next == StepPolicy(p, participants, e)
  {
    var outcome := FinalOutcome(e);
    next := p.(outcomePositive := Some(outcome));
    if p.resolvedAt.None? {
      next := next.(resolvedAt := Some(e.ts));
    }
    if Undecided(p.quorumStatus) {
      next := next.(quorumStatus := Some(if outcome == Some(false) then QuorumFailed else Reached));
    }
  }

  // ---- Runs that end badly --------------------------------------------------------------------

  method AnyAllowed(evaluations: seq<CommitmentEvaluation>) returns (any: bool)
    ensures any <==> exists c :: c in evaluations && c.decision.Allow?
  {
    for i := 0 to |evaluations|
      invariant forall k :: 0 <= k < i ==> !evaluations[k].decision.Allow?
    {
      if evaluations[i].decision.Allow? { return true; }
    }
    return false;
  }

  /** On failure or cancellation an open quorum is settled by whether anything was allowed. */
  method SettleQuorum(p: Policy, participants: seq<Participant>, e: Event) returns (next: Policy)
    requires e.kind.RunFailed? || e.kind.RunCancelled?
    ensures next == StepPolicy(p, participants, e)
  {
    next := p;
    if Undecided(p.quorumStatus) {
      var any := AnyAllowed(p.commitmentEvaluations);
      next := p.(quorumStatus := Some(if any then Reached else QuorumFailed));
    }
  }
}
