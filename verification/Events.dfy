/**
 * The canonical event as the reducer sees it, and the stored row it becomes.
 *
 * `event.data` and `decodedPayload` are JSON objects in the source.  Here each is a record of
 * the properties the reducer reads; an absent or null property is `None`.
 */
module Events {
  import opened Prelude

  /** Timestamps are ordered opaque values. */
  type Time = int

  datatype RunStatus =
    Queued | Starting | BindingSession | Running | Suspended | Completed | Failed | Cancelled
  {
    predicate Terminal() { Completed? || Failed? || Cancelled? }
  }

  datatype SessionState =
    StateUnspecified | StateOpen | StateResolved | StateExpired | StateSuspended | StateCancelled

  datatype EventType =
    | RunCreated | RunStarted | RunCompleted | RunFailed | RunCancelled
    | RunSuspended | RunResumed
    | SessionBound | SessionStreamOpened | SessionStreamGap | SessionStateChanged
    | ParticipantSeen
    | MessageSent | MessageReceived | MessageSendFailed
    | SignalEmitted | SignalAcknowledged
    | ProposalCreated | ProposalUpdated
    | DecisionFinalized
    | ProgressReported
    | ArtifactCreated
    | PolicyResolved | PolicyCommitmentEvaluated
    | LlmCallCompleted
    | OtherEvent(name: string)

  datatype MessageType =
    | SessionStart | Proposal | VoteMessage | Evaluation | Objection | Commitment
    | Accept | Approve | TaskAccept | HandoffAccept
    | Reject | TaskReject | HandoffDecline
    | OtherMessage(name: string)
  {
    function Text(): string {
      match this
      case SessionStart => "SessionStart"
      case Proposal => "Proposal"
      case VoteMessage => "Vote"
      case Evaluation => "Evaluation"
      case Objection => "Objection"
      case Commitment => "Commitment"
      case Accept => "Accept"
      case Approve => "Approve"
      case TaskAccept => "TaskAccept"
      case HandoffAccept => "HandoffAccept"
      case Reject => "Reject"
      case TaskReject => "TaskReject"
      case HandoffDecline => "HandoffDecline"
      case OtherMessage(name) => name
    }
  }

  datatype SubjectKind =
    SRun | SSession | SParticipant | SMessage | SSignal | SProposal | SDecision | STool | SArtifact | STrace | SPolicy

  datatype Subject = Subject(kind: SubjectKind, id: string)

  datatype Source = Source(kind: string, name: string, rawType: Option<string>)

  datatype Trace = Trace(traceId: Option<string>, spanId: Option<string>, parentSpanId: Option<string>)

  datatype Verdict = Allow | Deny

  datatype CommitmentRef = CommitmentRef(sessionId: string, commitmentHash: string)

  /** The decoded protobuf payload of an envelope. */
  datatype Payload = Payload(
    participants: seq<string>,
    maxSuspendMs: Option<real>,
    signalType: Option<string>, severity: Option<string>, signalId: Option<string>,
    confidence: Option<real>,
    vote: Option<string>, recommendation: Option<string>,
    action: Option<string>, option: Option<string>, revisedAction: Option<string>,
    proposalId: Option<string>, requestId: Option<string>, commitmentId: Option<string>,
    reason: Option<string>, rationale: Option<string>, summary: Option<string>, reasons: seq<string>,
    implicit: bool,
    outcomePositive: Option<bool>, supersedes: Option<CommitmentRef>,
    percentage: Option<real>, message: Option<string>,
    policyVersion: Option<string>, description: Option<string>, verdict: Option<Verdict>,
    model: Option<string>, promptTokens: Option<real>, completionTokens: Option<real>,
    totalTokens: Option<real>, estimatedCostUsd: Option<real>)

  datatype Data = Data(
    status: Option<RunStatus>, runtimeSessionId: Option<string>,
    startedAt: Option<Time>, endedAt: Option<Time>,
    traceId: Option<string>, modeName: Option<string>, decisionPrompt: Option<string>,
    sessionId: Option<string>, contextId: Option<string>, extensionKeys: Option<seq<string>>,
    expectedCommitments: Option<seq<string>>, state: Option<SessionState>,
    participantId: Option<string>,
    sender: Option<string>, from: Option<string>, to: seq<string>,
    messageType: Option<MessageType>, messageId: Option<string>,
    senderAuthenticated: Option<bool>, policyVersion: Option<string>,
    decodedPayload: Option<Payload>, payload: Option<Payload>)

  datatype Event = Event(
    id: string, runId: string, seqNo: nat, ts: Time, kind: EventType,
    schemaVersion: Option<nat>, subject: Option<Subject>, source: Source,
    trace: Option<Trace>, data: Data)
  {
    function SubjectId(): Option<string> {
      if subject.Some? then Some(subject.value.id) else None
    }

    /** The trace fields the reducer reads; an empty string is falsy and so absent. */
    function TraceId(): Option<string> {
      if trace.Some? && trace.value.traceId.Some? && trace.value.traceId.value != "" then trace.value.traceId else None
    }

    function SpanId(): Option<string> {
      if trace.Some? && trace.value.spanId.Some? && trace.value.spanId.value != "" then trace.value.spanId else None
    }
  }

  /** A `run.created` event that says nothing. */
  const BLANK_EVENT := Event("", "", 0, 0, RunCreated, None, None, Source("", "", None), None,
    Data(None, None, None, None, None, None, None, None, None, None, None, None, None, None, None, [],
         None, None, None, None, None, None))

  /** One `run_events_canonical` row. */
  datatype Row = Row(
    id: string, runId: string, seqNo: nat, ts: Time, kind: EventType,
    subjectKind: Option<SubjectKind>, subjectId: Option<string>,
    sourceKind: string, sourceName: string, rawType: Option<string>,
    traceId: Option<string>, spanId: Option<string>, parentSpanId: Option<string>,
    data: Data, schemaVersion: nat)

  const SCHEMA_VERSION: nat := 3

  /** `appendCanonical`: the row an event is stored as. */
  function RowOf(e: Event): Row {
    Row(e.id, e.runId, e.seqNo, e.ts, e.kind,
        if e.subject.Some? then Some(e.subject.value.kind) else None,
        e.SubjectId(),
        e.source.kind, e.source.name, e.source.rawType,
        if e.trace.Some? then e.trace.value.traceId else None,
        if e.trace.Some? then e.trace.value.spanId else None,
        if e.trace.Some? then e.trace.value.parentSpanId else None,
        e.data, e.schemaVersion.Or(SCHEMA_VERSION))
  }

  /** `normalizeEventSourceKind`: the pre-rename value reads back as the current one. */
  function NormalizeSourceKind(kind: string): string {
    if kind == "control-plane" then "macp-control-plane" else kind
  }

  /** `ReplayService.rowToCanonical`. */
  function RowToCanonical(r: Row): Event {
    Event(r.id, r.runId, r.seqNo, r.ts, r.kind, None,
          if r.subjectKind.Some? && r.subjectId.Some? && r.subjectId.value != ""
          then Some(Subject(r.subjectKind.value, r.subjectId.value)) else None,
          Source(NormalizeSourceKind(r.sourceKind), r.sourceName, r.rawType),
          Some(Trace(r.traceId, r.spanId, r.parentSpanId)),
          r.data)
  }

  /**
   * `rebuildProjection` casts the stored row to an event instead of converting it: the row has
   * no `subject` and no `trace` property, so the reducer sees neither.  (It never reads `source`.)
   */
  function CastRow(r: Row): Event {
    Event(r.id, r.runId, r.seqNo, r.ts, r.kind, Some(r.schemaVersion), None,
          Source(r.sourceKind, r.sourceName, r.rawType), None, r.data)
  }
}
