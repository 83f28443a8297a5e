/**
 * The run-state projection and its reducer (`ProjectionService.applyEvents`).
 *
 * The source mutates a clone of the state in one big switch.  The specification here gives the
 * step of each column separately, with what it depends on in its signature; the method
 * `ApplyEvents` keeps the source's loop and switch and is proved to compute the same state.
 */
module Projection {
  import opened Prelude
  import opened Events

  // ---- State ----------------------------------------------------------------------------------

  datatype RunSummary = RunSummary(
    runId: string, status: RunStatus, runtimeSessionId: Option<string>,
    startedAt: Option<Time>, endedAt: Option<Time>, traceId: Option<string>, modeName: Option<string>,
    contextId: Option<string>, extensionKeys: Option<seq<string>>,
    maxSuspendMs: Option<real>, historyGap: bool)

  datatype ActorStatus = Idle | Waiting | Active | Completed | Failed | Skipped
  {
    predicate Terminal() { Completed? || Failed? || Skipped? }

    /** Position in the promotion order of `upsertNode`; a status outside it has index -1. */
    function Rank(): int {
      match this
      case Idle => 0
      case Waiting => 1
      case Active => 2
      case Completed => 3
      case Failed => 4
      case Skipped => -1
    }
  }

  datatype Participant = Participant(
    participantId: string, role: Option<string>, status: ActorStatus,
    latestActivityAt: Option<Time>, latestSummary: Option<string>)

  datatype Node = Node(id: string, kind: string, status: ActorStatus)

  datatype Edge = Edge(from: string, to: string, kind: string, ts: Time)

  /** Participants and the graph nodes that mirror them. */
  datatype Actors = Actors(participants: seq<Participant>, nodes: seq<Node>)

  datatype Contribution = Contribution(
    participantId: string, action: string, confidence: Option<real>, reasons: seq<string>,
    ts: Time, vote: Option<Verdict>, messageType: Option<string>, implicit: bool)

  datatype Supersedes = Supersedes(sessionId: string, commitmentHash: string, canonical: bool)

  datatype Decision = Decision(
    action: string, confidence: Option<real>, reasons: seq<string>, finalized: bool,
    proposalId: Option<string>, outcomePositive: Option<Option<bool>>, prompt: Option<string>,
    proposals: seq<Contribution>, resolvedAt: Option<Time>, resolvedBy: Option<string>,
    supersedes: Option<Supersedes>)

  datatype Signal = Signal(
    id: string, name: string, severity: Option<string>, sourceParticipantId: Option<string>,
    ts: Time, confidence: Option<real>, payload: Option<Payload>, senderAuthenticated: Option<bool>,
    acknowledgedAt: Option<Time>, acknowledgedBy: Option<string>)

  datatype TimelineEntry = TimelineEntry(id: string, seqNo: nat, ts: Time, kind: EventType, subject: Option<Subject>)

  datatype Timeline = Timeline(latestSeq: nat, totalEvents: nat, recent: seq<TimelineEntry>)

  datatype TraceSummary = TraceSummary(
    traceId: Option<string>, spanCount: nat, lastSpanId: Option<string>, linkedArtifacts: seq<string>)

  datatype ProgressEntry = ProgressEntry(participantId: string, percentage: Option<real>, message: string, ts: Time)

  datatype CommitmentEvaluation = CommitmentEvaluation(commitmentId: string, decision: Verdict, reasons: seq<string>, ts: Time)

  datatype TallyEntry = TallyEntry(commitmentId: string, allow: nat, deny: nat, threshold: nat, required: nat, cast: nat)

  datatype QuorumStatus = Pending | QuorumFailed | Reached

  datatype Policy = Policy(
    policyVersion: string, policyDescription: Option<string>, resolvedAt: Option<Time>,
    outcomePositive: Option<Option<bool>>, commitmentEvaluations: seq<CommitmentEvaluation>,
    expectedCommitments: Option<seq<string>>, voteTally: seq<TallyEntry>, quorumStatus: Option<QuorumStatus>)

  datatype Outbound = Outbound(total: nat, queued: nat, accepted: nat, rejected: nat)

  datatype LlmCall = LlmCall(
    participantId: string, model: Option<string>, promptTokens: real, completionTokens: real,
    totalTokens: real, ts: Time, messageId: Option<string>, estimatedCostUsd: Option<real>)

  datatype Llm = Llm(
    calls: seq<LlmCall>, callCount: nat, promptTokens: real, completionTokens: real,
    totalTokens: real, estimatedCostUsd: real)

  /** The nine columns `ProjectionRepository.upsert` writes (participants and nodes sit in `actors`). */
  datatype Columns = Columns(
    run: RunSummary, actors: Actors, edges: seq<Edge>, decision: Option<Decision>, signals: seq<Signal>,
    progress: seq<ProgressEntry>, timeline: Timeline, trace: TraceSummary, policy: Policy)

  datatype State = State(cols: Columns, outbound: Outbound, llm: Llm)

  const NO_OUTBOUND := Outbound(0, 0, 0, 0)
  const NO_LLM := Llm([], 0, 0.0, 0.0, 0.0, 0.0)
  const TIMELINE_WINDOW: nat := 50
  const SIGNAL_WINDOW: nat := 200
  const PROPOSAL_WINDOW: nat := 50
  const PROGRESS_WINDOW: nat := 100
  const EVALUATION_WINDOW: nat := 50

  function Empty(runId: string): State {
    State(Columns(
            RunSummary(runId, RunStatus.Queued, None, None, None, None, None, None, None, None, false),
            Actors([], []), [], None, [], [],
            Timeline(0, 0, []), TraceSummary(None, 0, None, []),
            Policy("", None, None, None, [], None, [], None)),
          NO_OUTBOUND, NO_LLM)
  }

  // ---- Reading an event -----------------------------------------------------------------------

  function Sender(e: Event): string { e.data.sender.OrElse(e.data.from).Or("") }

  function MessageTypeOf(e: Event): MessageType { e.data.messageType.Or(OtherMessage("")) }

  function MessageText(e: Event, fallback: string): string {
    var t := MessageTypeOf(e).Text();
    if t == "" then fallback else t
  }

  /** The first value that is present and not the empty string. */
  function Truthy(v: Option<string>): bool { v.Some? && v.value != "" }

  function UpperChar(c: char): char { if 'a' <= c <= 'z' then c - ' ' else c }
  function LowerChar(c: char): char { if 'A' <= c <= 'Z' then c + ' ' else c }
  function Upper(s: string): string { Map(UpperChar, s) }
  function Lower(s: string): string { Map(LowerChar, s) }

  function InferAction(m: MessageType, p: Option<Payload>): string {
    var vote := if p.Some? then p.value.vote.OrElse(p.value.recommendation) else None;
    var action := if p.Some? then p.value.action.OrElse(p.value.option).OrElse(p.value.revisedAction) else None;
    if Truthy(vote) then vote.value
    else if Truthy(action) then action.value
    else if m.Text() != "" then m.Text()
    else "contribution"
  }

  function InferVote(m: MessageType, p: Option<Payload>): Option<Verdict> {
    var raw := Upper(if p.Some? then p.value.vote.OrElse(p.value.recommendation).Or("") else "");
    if raw == "APPROVE" || raw == "ACCEPT" || raw == "ALLOW" || raw == "YES" then Some(Allow)
    else if raw == "REJECT" || raw == "DENY" || raw == "BLOCK" || raw == "NO" then Some(Deny)
    else if m.Accept? || m.Approve? || m.TaskAccept? || m.HandoffAccept? then Some(Allow)
    else if m.Reject? || m.TaskReject? || m.HandoffDecline? then Some(Deny)
    else None
  }

  function ExtractReasons(p: Option<Payload>): seq<string> {
    if p.None? then []
    else
      (if Truthy(p.value.reason) then [p.value.reason.value] else [])
      + (if Truthy(p.value.rationale) then [p.value.rationale.value] else [])
      + (if Truthy(p.value.summary) then [p.value.summary.value] else [])
      + Filter(s => s != "", p.value.reasons)
  }

  predicate IsHexDigit(c: char) { '0' <= c <= '9' || 'a' <= c <= 'f' }

  /** Section 9 of RFC-MACP-0013: `sha256:` and exactly 64 lowercase hex characters. */
  predicate IsCanonicalHash(h: string) {
    |h| == 71 && h[..7] == "sha256:" && forall i :: 7 <= i < 71 ==> IsHexDigit(h[i])
  }

  function ExtractSupersedes(r: Option<CommitmentRef>): Option<Supersedes> {
    if r.None? || (r.value.sessionId == "" && r.value.commitmentHash == "") then None
    else Some(Supersedes(r.value.sessionId, r.value.commitmentHash, IsCanonicalHash(r.value.commitmentHash)))
  }

  function InferOutcome(action: string): Option<bool> {
    var a := Lower(action);
    if a == "approve" || a == "approved" || a == "accept" || a == "accepted" || a == "selected" || a == "completed" then Some(true)
    else if a == "reject" || a == "rejected" || a == "decline" || a == "declined" || a == "failed" then Some(false)
    else None
  }

  predicate IsImplicitAccept(p: Option<Payload>, messageId: Option<string>) {
    (p.Some? && p.value.implicit) || (messageId.Some? && "implicit-accept:" <= messageId.value)
  }

  predicate IsProposal(e: Event) { e.kind.ProposalCreated? || e.kind.ProposalUpdated? }

  function ProposalIdOf(e: Event): string {
    var p := e.data.decodedPayload;
    (if p.Some? then p.value.proposalId.OrElse(p.value.requestId) else None).OrElse(e.SubjectId()).Or("")
  }

  function ContributionOf(e: Event): Contribution {
    var p := e.data.decodedPayload;
    var m := MessageTypeOf(e);
    var explicit := if p.Some? then p.value.confidence else None;
    Contribution(
      e.data.sender.Or(""), InferAction(m, p),
      explicit.OrElse(if m.VoteMessage? then Some(1.0) else None),
      ExtractReasons(p), e.ts, InferVote(m, p),
      if m.Text() == "" then None else Some(m.Text()),
      IsImplicitAccept(p, e.data.messageId))
  }

  function CountVotes(s: seq<Contribution>, v: Verdict): nat {
    |Filter((c: Contribution) => c.vote == Some(v), s)|
  }

  /** The approve ratio over the vote-bearing contributions, if there are any. */
  function ApproveRatio(s: seq<Contribution>): Option<real> {
    var yes, no := CountVotes(s, Allow), CountVotes(s, Deny);
    if yes + no == 0 then None else Some(yes as real / (yes + no) as real)
  }

  function FinalAction(e: Event): string {
    if e.data.decodedPayload.Some? then e.data.decodedPayload.value.action.Or("resolved") else "resolved"
  }

  function FinalOutcome(e: Event): Option<bool> {
    var p := e.data.decodedPayload;
    if p.Some? && p.value.outcomePositive.Some? then p.value.outcomePositive else InferOutcome(FinalAction(e))
  }

  function FinalReasons(e: Event): seq<string> {
    [if e.data.decodedPayload.Some? then e.data.decodedPayload.value.reason.Or("Commitment observed")
     else "Commitment observed"]
  }

  function FinalSupersedes(e: Event): Option<Supersedes> {
    ExtractSupersedes(if e.data.decodedPayload.Some? then e.data.decodedPayload.value.supersedes else None)
  }

  // ---- Columns that only look at themselves ---------------------------------------------------

  function EntryOf(e: Event): TimelineEntry { TimelineEntry(e.id, e.seqNo, e.ts, e.kind, e.subject) }

  function StepTimeline(t: Timeline, e: Event): Timeline {
    Timeline(e.seqNo, t.totalEvents + 1, Last(t.recent + [EntryOf(e)], TIMELINE_WINDOW))
  }

  function StepTrace(t: TraceSummary, e: Event): TraceSummary {
    var t1 := if e.TraceId().Some? then t.(traceId := e.TraceId()) else t;
    var t2 := if e.SpanId().Some? then t1.(lastSpanId := e.SpanId(), spanCount := t1.spanCount + 1) else t1;
    if e.kind.ArtifactCreated? then
      var artifact := e.SubjectId().Or(e.id);
      if artifact in t2.linkedArtifacts then t2 else t2.(linkedArtifacts := t2.linkedArtifacts + [artifact])
    else t2
  }

  predicate IsRunLifecycle(k: EventType) {
    k.RunCreated? || k.RunStarted? || k.RunCompleted? || k.RunFailed? || k.RunCancelled?
  }

  predicate IsSessionEvent(k: EventType) { k.SessionBound? || k.SessionStateChanged? }

  /**
   * `base` is `current.run.runId`, the run id the batch started from: the source reads it from
   * the state passed to `applyEvents`, not from the one being built.
   */
  function StepRun(base: string, r: RunSummary, e: Event): RunSummary {
    var runId := if base != "" then base else e.runId;
    var d := e.data;
    if IsRunLifecycle(e.kind) then
      r.(runId := runId, status := d.status.Or(r.status),
         runtimeSessionId := d.runtimeSessionId.OrElse(r.runtimeSessionId),
         startedAt := d.startedAt.OrElse(r.startedAt), endedAt := d.endedAt.OrElse(r.endedAt),
         traceId := d.traceId.OrElse(r.traceId), modeName := d.modeName.OrElse(r.modeName))
    else if e.kind.RunSuspended? || e.kind.RunResumed? then
      r.(runId := runId, status := d.status.Or(r.status),
         runtimeSessionId := d.runtimeSessionId.OrElse(r.runtimeSessionId),
         traceId := d.traceId.OrElse(r.traceId))
    else if e.kind.SessionStreamGap? then
      r.(historyGap := true)
    else if IsSessionEvent(e.kind) then
      r.(runtimeSessionId := d.sessionId.OrElse(r.runtimeSessionId),
         contextId := d.contextId.OrElse(r.contextId),
         extensionKeys := d.extensionKeys.OrElse(r.extensionKeys),
         status := SessionStatus(d.state, r.status))
    else if e.kind.MessageReceived? && MessageTypeOf(e).SessionStart? then
      var p := d.decodedPayload.OrElse(d.payload);
      if p.Some? && p.value.maxSuspendMs.Some? && p.value.maxSuspendMs.value > 0.0
      then r.(maxSuspendMs := p.value.maxSuspendMs) else r
    else if e.kind.DecisionFinalized? then
      r.(status := RunStatus.Completed)
    else r
  }

  function SessionStatus(state: Option<SessionState>, status: RunStatus): RunStatus {
    match state
    case Some(StateResolved) => RunStatus.Completed
    case Some(StateExpired) => RunStatus.Failed
    case Some(StateCancelled) => RunStatus.Cancelled
    case Some(StateSuspended) => if status.Terminal() then status else RunStatus.Suspended
    case Some(StateOpen) => if status.Suspended? then RunStatus.Running else status
    case _ => status
  }

  function SignalOf(e: Event): Signal {
    var p := e.data.decodedPayload;
    Signal(e.SubjectId().Or(e.id),
           (if p.Some? then p.value.signalType else None)
             .OrElse(if e.data.messageType.Some? then Some(e.data.messageType.value.Text()) else None).Or("Signal"),
           if p.Some? then p.value.severity else None,
           e.data.sender, e.ts, if p.Some? then p.value.confidence else None,
           p, e.data.senderAuthenticated, None, None)
  }

  function AckTarget(e: Event): string {
    (if e.data.decodedPayload.Some? then e.data.decodedPayload.value.signalId else None)
      .OrElse(e.SubjectId()).Or("")
  }

  function Acknowledged(s: Signal, e: Event): Signal {
    s.(acknowledgedAt := Some(e.ts),
       acknowledgedBy := if Truthy(e.data.sender) then e.data.sender else s.acknowledgedBy)
  }

  /** Index of the first signal with this id, or the length when there is none. */
  function FindSignal(s: seq<Signal>, id: string): (i: nat)
    ensures i <= |s|
    ensures i < |s| ==> s[i].id == id
    ensures forall j :: 0 <= j < i ==> s[j].id != id
  {
    if s == [] then 0 else if s[0].id == id then 0 else 1 + FindSignal(s[1..], id)
  }

  function Acknowledge(s: seq<Signal>, e: Event): (r: seq<Signal>)
    ensures |r| == |s|
  {
    var i := FindSignal(s, AckTarget(e));
    if AckTarget(e) != "" && i < |s| then s[i := Acknowledged(s[i], e)] else s
  }

  function StepSignals(s: seq<Signal>, e: Event): seq<Signal> {
    if e.kind.SignalEmitted? then Last(s + [SignalOf(e)], SIGNAL_WINDOW)
    else if e.kind.SignalAcknowledged? then Acknowledge(s, e)
    else s
  }

  function ProgressOf(e: Event): ProgressEntry {
    var p := e.data.decodedPayload;
    ProgressEntry(e.data.sender.Or(""), if p.Some? then p.value.percentage else None,
                  if p.Some? then p.value.message.Or("") else "", e.ts)
  }

  function StepProgress(s: seq<ProgressEntry>, e: Event): seq<ProgressEntry> {
    if e.kind.ProgressReported? then Last(s + [ProgressOf(e)], PROGRESS_WINDOW) else s
  }

  const BLANK_DECISION := Decision("", None, [], false, None, None, None, [], None, None, None)

  function StepDecision(current: Option<Decision>, e: Event): Option<Decision> {
    if e.kind.RunCreated? then
      if e.data.decisionPrompt.Some?
      then Some(current.Or(BLANK_DECISION).(prompt := e.data.decisionPrompt)) else current
    else if IsProposal(e) then Some(WithProposal(current.Or(BLANK_DECISION), e))
    else if e.kind.DecisionFinalized? then Some(WithFinal(current.Or(BLANK_DECISION), e))
    else current
  }

  /** What an open decision is called while this proposal is the latest. */
  function ProposalAction(e: Event): string {
    if ProposalIdOf(e) != "" then ProposalIdOf(e) else e.SubjectId().Or("proposal")
  }

  function ProposalReasons(e: Event): seq<string> {
    var p := e.data.decodedPayload;
    var reason := if p.Some? then p.value.reason.OrElse(p.value.summary).OrElse(p.value.rationale) else None;
    var text := reason.Or(if e.kind.ProposalCreated? then "proposal.created" else "proposal.updated");
    if text == "" then [] else [text]
  }

  function WithProposal(d: Decision, e: Event): Decision {
    Proposed(d, ContributionOf(e), ProposalAction(e), ProposalIdOf(e), ProposalReasons(e),
             if e.data.decodedPayload.Some? then e.data.decodedPayload.value.confidence else None)
  }

  function Proposed(d: Decision, c: Contribution, action: string, id: string, reasons: seq<string>,
      explicit: Option<real>): Decision {
    var all := d.proposals + [c];
    if d.finalized then d.(proposals := Last(all, PROPOSAL_WINDOW))
    else
      d.(action := action,
         confidence := ApproveRatio(all).OrElse(explicit).OrElse(d.confidence),
         reasons := reasons,
         finalized := false,
         proposalId := Some(id),
         proposals := Last(all, PROPOSAL_WINDOW))
  }

  function WithFinal(d: Decision, e: Event): Decision {
    var p := e.data.decodedPayload;
    d.(action := FinalAction(e),
       confidence := (if p.Some? then p.value.confidence else None).OrElse(ApproveRatio(d.proposals)).OrElse(d.confidence),
       reasons := FinalReasons(e),
       finalized := true,
       proposalId := Some((if p.Some? then p.value.commitmentId else None).OrElse(d.proposalId).Or("")),
       outcomePositive := Some(FinalOutcome(e)),
       resolvedAt := Some(e.ts),
       resolvedBy := e.data.sender,
       supersedes := FinalSupersedes(e).OrElse(d.supersedes))
  }

  function StepOutbound(o: Outbound, e: Event): Outbound {
    if e.kind.MessageSent? then o.(total := o.total + 1, accepted := o.accepted + 1)
    else if e.kind.MessageSendFailed? then o.(total := o.total + 1, rejected := o.rejected + 1)
    else o
  }

  function StepLlm(l: Llm, e: Event): Llm {
    if e.kind.LlmCallCompleted? && e.data.decodedPayload.Some? then
      var p := e.data.decodedPayload.value;
      var prompt, completion := p.promptTokens.Or(0.0), p.completionTokens.Or(0.0);
      var total := p.totalTokens.Or(prompt + completion);
      Llm(Last(l.calls + [LlmCall(e.data.sender.Or(""), p.model, prompt, completion, total, e.ts,
                                  e.data.messageId, p.estimatedCostUsd)], PROGRESS_WINDOW),
          l.callCount + 1, l.promptTokens + prompt, l.completionTokens + completion,
          l.totalTokens + total, l.estimatedCostUsd + p.estimatedCostUsd.Or(0.0))
    else l
  }

  // ---- Policy: quorum status and vote tally ---------------------------------------------------

  function FindTally(s: seq<TallyEntry>, id: string): (i: nat)
    ensures i <= |s|
    ensures i < |s| ==> s[i].commitmentId == id
    ensures forall j :: 0 <= j < i ==> s[j].commitmentId != id
  {
    if s == [] then 0 else if s[0].commitmentId == id then 0 else 1 + FindTally(s[1..], id)
  }

  /** Voter-role participants when there are any, otherwise every participant. */
  function RequiredVotes(ps: seq<Participant>): nat {
    var voters := |Filter((p: Participant) => p.role == Some("voter"), ps)|;
    if voters > 0 then voters else |ps|
  }

  function BumpEntry(t: TallyEntry, v: Verdict, required: nat): TallyEntry {
    var allow := t.allow + if v.Allow? then 1 else 0;
    var deny := t.deny + if v.Deny? then 1 else 0;
    t.(allow := allow, deny := deny, cast := allow + deny, required := required, threshold := (required + 1) / 2)
  }

  function BumpTally(s: seq<TallyEntry>, id: string, v: Verdict, required: nat): seq<TallyEntry> {
    var i := FindTally(s, id);
    if i < |s| then s[i := BumpEntry(s[i], v, required)]
    else s + [BumpEntry(TallyEntry(id, 0, 0, 0, 0, 0), v, required)]
  }

  predicate Undecided(q: Option<QuorumStatus>) { q.None? || q.value.Pending? }

  function EvaluationOf(e: Event): CommitmentEvaluation {
    var p := e.data.decodedPayload;
    CommitmentEvaluation((if p.Some? then p.value.commitmentId else None).OrElse(e.SubjectId()).Or(""),
                         (if p.Some? then p.value.verdict else None).Or(Allow),
                         if p.Some? then p.value.reasons else [], e.ts)
  }

  function StepPolicy(p: Policy, participants: seq<Participant>, e: Event): Policy {
    var payload := e.data.decodedPayload;
    if e.kind.RunFailed? || e.kind.RunCancelled? then
      if Undecided(p.quorumStatus) then
        p.(quorumStatus := Some(if exists c :: c in p.commitmentEvaluations && c.decision.Allow? then Reached else QuorumFailed))
      else p
    else if e.kind.SessionBound? && e.data.expectedCommitments.Some? then
      var expected := e.data.expectedCommitments.value;
      p.(expectedCommitments := Some(expected),
         quorumStatus := if |expected| > 0 then p.quorumStatus.OrElse(Some(Pending)) else p.quorumStatus)
    else if IsProposal(e) then
      var vote := InferVote(MessageTypeOf(e), payload);
      if vote.Some? && ProposalIdOf(e) != "" then
        p.(voteTally := BumpTally(p.voteTally, ProposalIdOf(e), vote.value, RequiredVotes(participants)),
           quorumStatus := if Undecided(p.quorumStatus) then Some(Pending) else p.quorumStatus)
      else p
    else if e.kind.DecisionFinalized? then
      p.(outcomePositive := Some(FinalOutcome(e)),
         resolvedAt := p.resolvedAt.OrElse(Some(e.ts)),
         quorumStatus := if Undecided(p.quorumStatus)
                         then Some(if FinalOutcome(e) == Some(false) then QuorumFailed else Reached)
                         else p.quorumStatus)
    else if e.kind.PolicyResolved? then
      p.(policyVersion := (if payload.Some? then payload.value.policyVersion else None).OrElse(e.data.policyVersion).Or(""),
         policyDescription := Some(if payload.Some? then payload.value.description.Or("") else ""),
         resolvedAt := Some(e.ts))
    else if e.kind.PolicyCommitmentEvaluated? then
      p.(commitmentEvaluations := Last(p.commitmentEvaluations + [EvaluationOf(e)], EVALUATION_WINDOW),
         quorumStatus := if EvaluationOf(e).decision.Allow? then Some(Reached) else p.quorumStatus)
    else p
  }

  // ---- Participants, nodes and edges ----------------------------------------------------------

  function FindParticipant(ps: seq<Participant>, id: string): (i: nat)
    ensures i <= |ps|
    ensures i < |ps| ==> ps[i].participantId == id
    ensures forall j :: 0 <= j < i ==> ps[j].participantId != id
  {
    if ps == [] then 0 else if ps[0].participantId == id then 0 else 1 + FindParticipant(ps[1..], id)
  }

  function FindNode(ns: seq<Node>, id: string): (i: nat)
    ensures i <= |ns|
    ensures i < |ns| ==> ns[i].id == id
    ensures forall j :: 0 <= j < i ==> ns[j].id != id
  {
    if ns == [] then 0 else if ns[0].id == id then 0 else 1 + FindNode(ns[1..], id)
  }

  function SetNodeStatus(ns: seq<Node>, id: string, status: ActorStatus): (r: seq<Node>)
    ensures |r| == |ns|
  {
    var j := FindNode(ns, id);
    if j < |ns| then ns[j := ns[j].(status := status)] else ns
  }

  function Declare(a: Actors, id: string): Actors {
    if FindParticipant(a.participants, id) < |a.participants| then a
    else Actors(a.participants + [Participant(id, None, Idle, None, None)],
                a.nodes + [Node(id, "participant", Idle)])
  }

  function Seen(p: Participant, ts: Time, summary: Option<string>): Participant {
    p.(latestActivityAt := Some(ts), latestSummary := if Truthy(summary) then summary else p.latestSummary)
  }

  /** Participant i becomes p with this status, and so does the node of its id. */
  function WithStatus(a: Actors, i: nat, p: Participant, status: ActorStatus): Actors
    requires i < |a.participants|
  {
    Actors(a.participants[i := p.(status := status)], SetNodeStatus(a.nodes, p.participantId, status))
  }

  function TouchKnown(a: Actors, run: RunStatus, i: nat, ts: Time, status: ActorStatus, summary: Option<string>): Actors
    requires i < |a.participants|
  {
    var p := Seen(a.participants[i], ts, summary);
    if run.Terminal() && p.status.Terminal() then
      a.(participants := a.participants[i := p])
    else
      WithStatus(a, i, p, status)
  }

  /** `touchParticipant`; an empty id is ignored. */
  function Touch(a: Actors, run: RunStatus, id: string, ts: Time, status: ActorStatus,
      summary: Option<string>): Actors {
    if id == "" then a
    else
      var a1 := Declare(a, id);
      var i := FindParticipant(a1.participants, id);
      if i < |a1.participants| then TouchKnown(a1, run, i, ts, status, summary) else a1
  }

  function TouchAll(a: Actors, run: RunStatus, ids: seq<string>, ts: Time): Actors
    decreases |ids|
  {
    if ids == [] then a else TouchAll(Touch(a, run, ids[0], ts, Waiting, None), run, ids[1..], ts)
  }

  /** `upsertNode`: add the node, or promote it; never demote. */
  function UpsertNode(ns: seq<Node>, n: Node): seq<Node> {
    var j := FindNode(ns, n.id);
    if j < |ns| then
      if n.status.Rank() > ns[j].status.Rank() then ns[j := ns[j].(status := n.status)] else ns
    else ns + [n]
  }

  function ParticipantIds(ps: seq<Participant>): seq<string> { Map((p: Participant) => p.participantId, ps) }

  /** Whom a received message reaches: explicit `to`, else the SessionStart roster or the declared participants. */
  function Recipients(e: Event, declared: seq<string>): seq<string> {
    var sender := Sender(e);
    var p := e.data.decodedPayload.OrElse(e.data.payload);
    if e.data.to != [] then e.data.to
    else if MessageTypeOf(e).SessionStart? then
      if p.Some? then Filter(s => s != sender, p.value.participants) else []
    else if MessageTypeOf(e).Proposal? then Filter(s => s != sender, declared)
    else []
  }

  const START_NODE := Node("__start", "start", ActorStatus.Completed)
  const PROPOSAL_NODE := Node("__proposal", "proposal", ActorStatus.Completed)
  const DECISION_ACTIVE := Node("__decision", "decision", Active)
  const DECISION_DONE := Node("__decision", "decision", ActorStatus.Completed)
  const OUTCOME_NODE := Node("__outcome", "output", ActorStatus.Completed)

  predicate IsBallot(m: MessageType) { m.VoteMessage? || m.Evaluation? || m.Objection? }

  function LifecycleNodes(ns: seq<Node>, m: MessageType): seq<Node> {
    var n1 := UpsertNode(ns, START_NODE);
    if m.Proposal? then UpsertNode(n1, PROPOSAL_NODE)
    else if IsBallot(m) then UpsertNode(n1, DECISION_ACTIVE)
    else if m.Commitment? then UpsertNode(UpsertNode(n1, DECISION_DONE), OUTCOME_NODE)
    else n1
  }

  /** Last index below n of a sweepable participant with the greatest activity time. */
  function LastActive(ps: seq<Participant>, n: nat): (r: Option<nat>)
    requires n <= |ps|
    ensures r.Some? ==> r.value < n && !ps[r.value].status.Terminal() && ps[r.value].latestActivityAt.Some?
    ensures r.None? ==> forall k :: 0 <= k < n && !ps[k].status.Terminal() ==> ps[k].latestActivityAt.None?
    ensures r.Some? ==> forall k :: 0 <= k < n && !ps[k].status.Terminal() && ps[k].latestActivityAt.Some?
                          ==> ps[k].latestActivityAt.value <= ps[r.value].latestActivityAt.value
  {
    if n == 0 then None
    else
      var prev := LastActive(ps, n - 1);
      var p := ps[n - 1];
      if p.status.Terminal() || p.latestActivityAt.None? then prev
      else if prev.Some? && ps[prev.value].latestActivityAt.value > p.latestActivityAt.value then prev
      else Some(n - 1)
  }

  datatype Outcome = Succeeded | Broke | Stopped

  /** The participant a failing run blames, if any. */
  function Blamed(ps: seq<Participant>, outcome: Outcome): Option<nat> {
    if outcome.Broke? then LastActive(ps, |ps|) else None
  }

  function SweptStatus(p: Participant, i: nat, blamed: Option<nat>): ActorStatus {
    if p.status.Terminal() then p.status
    else if p.latestActivityAt.None? then Skipped
    else if blamed == Some(i) then ActorStatus.Failed
    else ActorStatus.Completed
  }

  /** `sweepTerminal` over participants i and later. */
  function SweepFrom(a: Actors, i: nat, blamed: Option<nat>): Actors
    decreases |a.participants| - i
  {
    if i >= |a.participants| then a
    else
      var p := a.participants[i];
      if p.status.Terminal() then SweepFrom(a, i + 1, blamed)
      else
        var s := SweptStatus(p, i, blamed);
        SweepFrom(WithStatus(a, i, p, s), i + 1, blamed)
  }

  function Sweep(a: Actors, outcome: Outcome): Actors {
    SweepFrom(a, 0, Blamed(a.participants, outcome))
  }

  /** Which sweep, if any, an event triggers. */
  function SweepOutcome(e: Event): Option<Outcome> {
    if e.kind.RunCompleted? then Some(Succeeded)
    else if e.kind.RunCancelled? then Some(Stopped)
    else if e.kind.RunFailed? then Some(Broke)
    else if IsSessionEvent(e.kind) then
      match e.data.state
      case Some(StateResolved) => Some(Succeeded)
      case Some(StateExpired) => Some(Broke)
      case Some(StateCancelled) => Some(Stopped)
      case _ => None
    else None
  }

  /** The touches of a received message: the sender first, then whoever it reaches. */
  function Reach(a: Actors, run: RunStatus, e: Event): Actors {
    var a1 := Touch(a, run, Sender(e), e.ts, Active, Some(MessageText(e, "message.received")));
    TouchAll(a1, run, Recipients(e, ParticipantIds(a1.participants)), e.ts)
  }

  function StepActors(a: Actors, run: RunStatus, e: Event): Actors {
    if SweepOutcome(e).Some? then Sweep(a, SweepOutcome(e).value)
    else if e.kind.ParticipantSeen? then Declare(a, e.data.participantId.OrElse(e.SubjectId()).Or(""))
    else if e.kind.MessageSent? then
      var text := if e.data.messageType.Some? then e.data.messageType.value.Text() else "message.sent";
      TouchAll(Touch(a, run, Sender(e), e.ts, Active, Some(text)), run, e.data.to, e.ts)
    else if e.kind.MessageReceived? then
      var a1 := Reach(a, run, e);
      a1.(nodes := LifecycleNodes(a1.nodes, MessageTypeOf(e)))
    else a
  }

  function FindEdge(es: seq<Edge>, from: string, to: string, kind: string): (i: nat)
    ensures i <= |es|
  {
    if es == [] then 0
    else if es[0].from == from && es[0].to == to && es[0].kind == kind then 0
    else 1 + FindEdge(es[1..], from, to, kind)
  }

  function UpsertEdge(es: seq<Edge>, from: string, to: string, kind: string, ts: Time): seq<Edge> {
    if from == "" || to == "" || from == to then es
    else
      var i := FindEdge(es, from, to, kind);
      if i < |es| then es[i := es[i].(ts := ts)] else es + [Edge(from, to, kind, ts)]
  }

  function UpsertFan(es: seq<Edge>, from: string, tos: seq<string>, kind: string, ts: Time): seq<Edge>
    decreases |tos|
  {
    if tos == [] then es else UpsertFan(UpsertEdge(es, from, tos[0], kind, ts), from, tos[1..], kind, ts)
  }

  function PushFan(es: seq<Edge>, from: string, tos: seq<string>, kind: string, ts: Time): seq<Edge> {
    if from == "" then es else es + Map(to => Edge(from, to, kind, ts), Filter(to => to != "", tos))
  }

  function LifecycleEdges(es: seq<Edge>, m: MessageType, sender: string, to: seq<string>, ts: Time): seq<Edge> {
    if m.SessionStart? then UpsertFan(UpsertEdge(es, "__start", sender, "session.bound", ts), sender, to, "fanout", ts)
    else if m.Proposal? then UpsertFan(UpsertEdge(es, sender, "__proposal", "proposes", ts), "__proposal", to, "review", ts)
    else if IsBallot(m) then UpsertEdge(es, sender, "__decision", Lower(m.Text()), ts)
    else if m.Commitment? then UpsertEdge(es, "__decision", "__outcome", "commits", ts)
    else es
  }

  /** `declared` is the participant list once the sender has been touched. */
  function StepEdges(es: seq<Edge>, declared: seq<string>, e: Event): seq<Edge> {
    if e.kind.MessageSent? then Last(PushFan(es, Sender(e), e.data.to, "message.sent", e.ts), 200)
    else if e.kind.MessageReceived? then
      var sender, to := Sender(e), Recipients(e, declared);
      Last(UpsertFan(LifecycleEdges(es, MessageTypeOf(e), sender, to, e.ts), sender, to, MessageText(e, "message.received"), e.ts), 300)
    else es
  }

  function Declared(a: Actors, run: RunStatus, e: Event): seq<string> {
    if e.kind.MessageReceived?
    then ParticipantIds(Touch(a, run, Sender(e), e.ts, Active, Some(MessageText(e, "message.received"))).participants)
    else []
  }

  // ---- The whole step and its fold ------------------------------------------------------------

  function StepColumns(base: string, c: Columns, e: Event): Columns {
    Columns(
      StepRun(base, c.run, e),
      StepActors(c.actors, c.run.status, e),
      StepEdges(c.edges, Declared(c.actors, c.run.status, e), e),
      StepDecision(c.decision, e),
      StepSignals(c.signals, e),
      StepProgress(c.progress, e),
      StepTimeline(c.timeline, e),
      StepTrace(c.trace, e),
      StepPolicy(c.policy, c.actors.participants, e))
  }

  function Step(base: string, s: State, e: Event): State {
    State(StepColumns(base, s.cols, e), StepOutbound(s.outbound, e), StepLlm(s.llm, e))
  }

  function RunStepper(base: string): (RunSummary, Event) -> RunSummary { (r, e) => StepRun(base, r, e) }

  function ColumnStepper(base: string): (Columns, Event) -> Columns { (c, e) => StepColumns(base, c, e) }

  function Stepper(base: string): (State, Event) -> State { (s, e) => Step(base, s, e) }

  function Fold(base: string, s: State, es: seq<Event>): State { Foldl(Stepper(base), s, es) }

  /** `applyEvents(current, events)`. */
  function Apply(current: State, es: seq<Event>): State { Fold(current.cols.run.runId, current, es) }
}
