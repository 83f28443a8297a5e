/**
 * `applyEvents` as the source writes it, and how the fold behaves when a log is cut into batches.
 */
module Batching {
  import opened Prelude
  import opened Events
  import opened Projection
  import opened Branches
  import opened ActorLaws

  lemma {:induction false} RunColumn(base: string, s: State, es: seq<Event>)
    ensures Fold(base, s, es).cols.run == Foldl(RunStepper(base), s.cols.run, es)
  {
    FoldlProject(Stepper(base), RunStepper(base), (s: State) => s.cols.run, s, es);
  }

  lemma {:induction false} OutboundColumn(base: string, s: State, es: seq<Event>)
    ensures Fold(base, s, es).outbound == Foldl(StepOutbound, s.outbound, es)
  {
    FoldlProject(Stepper(base), StepOutbound, (s: State) => s.outbound, s, es);
  }

  lemma {:induction false} LlmColumn(base: string, s: State, es: seq<Event>)
    ensures Fold(base, s, es).llm == Foldl(StepLlm, s.llm, es)
  {
    FoldlProject(Stepper(base), StepLlm, (s: State) => s.llm, s, es);
  }

  lemma {:induction false} ColumnsFold(base: string, s: State, es: seq<Event>)
    ensures Fold(base, s, es).cols == Foldl(ColumnStepper(base), s.cols, es)
  {
    FoldlProject(Stepper(base), ColumnStepper(base), (s: State) => s.cols, s, es);
  }

  /** The columns of the plain fold over a log. */
  function FoldColumns(runId: string, es: seq<Event>): Columns { Apply(Empty(runId), es).cols }

  lemma {:induction false} RunStepsKeepId(base: string, r: RunSummary, es: seq<Event>)
    requires base != "" && r.runId == base
    ensures Foldl(RunStepper(base), r, es).runId == base
    decreases |es|
  {
    if es != [] {
      RunStepsKeepId(base, r, es[..|es| - 1]);
    }
  }

  lemma {:induction false} RunIdKept(base: string, s: State, es: seq<Event>)
    requires base != "" && s.cols.run.runId == base
    ensures Fold(base, s, es).cols.run.runId == base
  {
    RunColumn(base, s, es);
    RunStepsKeepId(base, s.cols.run, es);
  }

  /** However a log is cut, applying the pieces in order gives the fold over the whole of it. */
  lemma {:induction false} BatchesCompose(s: State, a: seq<Event>, b: seq<Event>)
    requires s.cols.run.runId != ""
    ensures Apply(Apply(s, a), b) == Apply(s, a + b)
  {
    RunIdKept(s.cols.run.runId, s, a);
    FoldlAppend(Stepper(s.cols.run.runId), s, a, b);
  }

  /** After a lifecycle event the run id is the batch's, or the event's when the batch has none. */
  lemma {:induction false} LastRunId(base: string, s: State, es: seq<Event>, e: Event)
    requires IsRunLifecycle(e.kind)
    ensures Fold(base, s, es + [e]).cols.run.runId == if base != "" then base else e.runId
  {
    RunColumn(base, s, es + [e]);
    assert (es + [e])[..|es|] == es;
  }

  ghost predicate BatchingInvisible(s: State) {
    forall a: seq<Event>, b: seq<Event> :: Apply(Apply(s, a), b) == Apply(s, a + b)
  }

  /**
   * With no run id to start from, two lifecycle events naming different runs fold differently in one
   * batch and in two.
   */
  lemma {:induction false} UnsetRunIdTells(s: State) returns (a: seq<Event>, b: seq<Event>)
    requires s.cols.run.runId == ""
    ensures Apply(Apply(s, a), b).cols.run.runId != Apply(s, a + b).cols.run.runId
  {
    var x, y := BLANK_EVENT.(runId := "x"), BLANK_EVENT.(runId := "y");
    a, b := [x], [y];
    assert [] + [x] == a && [] + [y] == b;
    LastRunId("", s, [], x);
    LastRunId("", s, a, y);
    LastRunId("x", Apply(s, a), [], y);
    assert "x" != "y";
  }

  /**
   * The run id is read from the state the batch started with, so batching is invisible exactly
   * when that id is set.
   */
  lemma {:induction false} BatchingInvisibleIffRunIdSet(s: State)
    ensures BatchingInvisible(s) <==> s.cols.run.runId != ""
  {
    if s.cols.run.runId != "" {
      forall a: seq<Event>, b: seq<Event> ensures Apply(Apply(s, a), b) == Apply(s, a + b) {
        BatchesCompose(s, a, b);
      }
    } else {
      var a, b := UnsetRunIdTells(s);
      assert Apply(Apply(s, a), b) != Apply(s, a + b);
    }
  }

  /** The two statements before the switch. */
  function Stamped(c: Columns, e: Event): Columns {
    c.(timeline := Timeline(e.seqNo, c.timeline.totalEvents + 1, Last(c.timeline.recent + [EntryOf(e)], TIMELINE_WINDOW)),
       trace := StepTrace(c.trace, e))
  }

  method ApplyRunEvent(base: string, before: Columns, e: Event) returns (cols: Columns)
    requires IsRunLifecycle(e.kind) || e.kind.RunSuspended? || e.kind.RunResumed? || e.kind.SessionStreamGap?
    ensures cols == StepColumns(base, before, e)
  {
    cols := Stamped(before, e);
    cols := cols.(run := StepRun(base, cols.run, e));
    if e.kind.RunCreated? && e.data.decisionPrompt.Some? {
      cols := cols.(decision := Some(cols.decision.Or(BLANK_DECISION).(prompt := e.data.decisionPrompt)));
    } else if e.kind.RunCompleted? || e.kind.RunCancelled? || e.kind.RunFailed? {
      var swept := SweepTerminal(before.actors, SweepOutcome(e).value);
      cols := cols.(actors := swept);
      if !e.kind.RunCompleted? {
        var policy := SettleQuorum(before.policy, before.actors.participants, e);
        cols := cols.(policy := policy);
      }
    }
  }

  method ApplySessionEvent(base: string, before: Columns, e: Event) returns (cols: Columns)
    requires IsSessionEvent(e.kind)
    ensures cols == StepColumns(base, before, e)
  {
    cols := Stamped(before, e);
    cols := cols.(run := StepRun(base, cols.run, e), policy := StepPolicy(cols.policy, before.actors.participants, e));
    if SweepOutcome(e).Some? {
      var swept := SweepTerminal(before.actors, SweepOutcome(e).value);
      cols := cols.(actors := swept);
    }
  }

  method ApplyMessageSent(base: string, before: Columns, e: Event) returns (cols: Columns)
    requires e.kind.MessageSent?
    ensures cols == StepColumns(base, before, e)
  {
    var actors := SendTouches(before.actors, before.run.status, e);
    var edges := SendEdges(before.edges, [], e);
    cols := Stamped(before, e).(actors := actors, edges := edges);
  }

  method ApplyMessageReceived(base: string, before: Columns, e: Event) returns (cols: Columns)
    requires e.kind.MessageReceived?
    ensures cols == StepColumns(base, before, e)
  {
    var actors, edges := ReceiveMessage(before.actors, before.edges, before.run.status, e);
    cols := Stamped(before, e).(actors := actors, edges := edges);
    var p := e.data.decodedPayload.OrElse(e.data.payload);
    if MessageTypeOf(e).SessionStart? && p.Some? && p.value.maxSuspendMs.Some? && p.value.maxSuspendMs.value > 0.0 {
      cols := cols.(run := cols.run.(maxSuspendMs := p.value.maxSuspendMs));
    }
  }

  method ApplyProposal(base: string, before: Columns, e: Event) returns (cols: Columns)
    requires IsProposal(e)
    ensures cols == StepColumns(base, before, e)
  {
    var decision := Propose(before.decision, e);
    var policy := ProposePolicy(before.policy, before.actors.participants, e);
    cols := Stamped(before, e).(decision := Some(decision), policy := policy);
  }

  method ApplyFinalization(base: string, before: Columns, e: Event) returns (cols: Columns)
    requires e.kind.DecisionFinalized?
    ensures cols == StepColumns(base, before, e)
  {
    var decision := Finalize(before.decision, e);
    var policy := FinalizePolicy(before.policy, before.actors.participants, e);
    cols := Stamped(before, e).(decision := Some(decision), policy := policy, run := before.run.(status := RunStatus.Completed));
  }

  /** The kinds that touch one list or one column. */
  method ApplyListEvent(base: string, before: Columns, e: Event) returns (cols: Columns)
    requires e.kind.ParticipantSeen? || e.kind.SignalEmitted? || e.kind.SignalAcknowledged? || e.kind.ProgressReported?
          || e.kind.PolicyResolved? || e.kind.PolicyCommitmentEvaluated?
    ensures cols == StepColumns(base, before, e)
  {
    cols := Stamped(before, e);
    match e.kind {
      case ParticipantSeen =>
        cols := cols.(actors := Declare(cols.actors, e.data.participantId.OrElse(e.SubjectId()).Or("")));
      case SignalEmitted =>
        cols := cols.(signals := Last(cols.signals + [SignalOf(e)], SIGNAL_WINDOW));
      case SignalAcknowledged =>
        cols := cols.(signals := Acknowledge(cols.signals, e));
      case ProgressReported =>
        cols := cols.(progress := Last(cols.progress + [ProgressOf(e)], PROGRESS_WINDOW));
      case PolicyResolved | PolicyCommitmentEvaluated =>
        cols := cols.(policy := StepPolicy(cols.policy, cols.actors.participants, e));
    }
  }

  method ApplyColumns(base: string, before: Columns, e: Event) returns (cols: Columns)
    ensures cols == StepColumns(base, before, e)
  {
    match e.kind {
      case RunCreated | RunStarted | RunCompleted | RunFailed | RunCancelled | RunSuspended | RunResumed | SessionStreamGap =>
        cols := ApplyRunEvent(base, before, e);
      case SessionBound | SessionStateChanged =>
        cols := ApplySessionEvent(base, before, e);
      case MessageReceived =>
        cols := ApplyMessageReceived(base, before, e);
      case MessageSent =>
        cols := ApplyMessageSent(base, before, e);
      case ProposalCreated | ProposalUpdated =>
        cols := ApplyProposal(base, before, e);
      case DecisionFinalized =>
        cols := ApplyFinalization(base, before, e);
      case ParticipantSeen | SignalEmitted | SignalAcknowledged | ProgressReported | PolicyResolved | PolicyCommitmentEvaluated =>
        cols := ApplyListEvent(base, before, e);
      case MessageSendFailed | LlmCallCompleted | SessionStreamOpened | ArtifactCreated | OtherEvent(_) =>
        cols := Stamped(before, e);
    }
  }

  /** One pass of the switch, changing a copy of the state branch by branch. */
  method ApplyEvent(base: string, before: State, e: Event) returns (next: State)
    ensures next == Step(base, before, e)
  {
    var cols := ApplyColumns(base, before.cols, e);
    next := before.(cols := cols);
    if e.kind.MessageSent? {
      next := next.(outbound := next.outbound.(total := next.outbound.total + 1, accepted := next.outbound.accepted + 1));
    } else if e.kind.MessageSendFailed? {
      next := next.(outbound := next.outbound.(total := next.outbound.total + 1, rejected := next.outbound.rejected + 1));
    } else if e.kind.LlmCallCompleted? {
      next := next.(llm := StepLlm(next.llm, e));
    }
  }

  /** `applyEvents`: the loop over the batch, starting from a clone of `current`. */
  method ApplyEvents(current: State, events: seq<Event>) returns (next: State)
    ensures next == Apply(current, events)
  {
    next := current;
    for i := 0 to |events|
      invariant next == Fold(current.cols.run.runId, current, events[..i])
    {
      assert events[..i + 1][..i] == events[..i];
      next := ApplyEvent(current.cols.run.runId, next, events[i]);
    }
    assert events[..|events|] == events;
  }

  // ---- Columns that are not persisted ---------------------------------------------------------

  /** What reading the stored row back gives: the columns, with everything not stored at its default. */
  function Reloaded(c: Columns): State { State(c, NO_OUTBOUND, NO_LLM) }

  predicate CountsLlm(e: Event) { e.kind.LlmCallCompleted? && e.data.decodedPayload.Some? }

  /** The nine persisted columns never look at the two that are not. */
  lemma {:induction false} ColumnsIndependent(base: string, s: State, t: State, es: seq<Event>)
    requires s.cols == t.cols
    ensures Fold(base, s, es).cols == Fold(base, t, es).cols
  {
    ColumnsFold(base, s, es);
    ColumnsFold(base, t, es);
  }

  predicate IsSent(e: Event) { e.kind.MessageSent? }
  predicate IsSendFailure(e: Event) { e.kind.MessageSendFailed? }

  /** Message totals count exactly the outbound events of the folded log. */
  lemma {:induction false} OutboundTotals(o: Outbound, es: seq<Event>)
    ensures var r := Foldl(StepOutbound, o, es);
            && r.total == o.total + Count(IsSent, es) + Count(IsSendFailure, es)
            && r.accepted == o.accepted + Count(IsSent, es)
            && r.rejected == o.rejected + Count(IsSendFailure, es)
            && r.queued == o.queued
    decreases |es|
  {
    if es != [] {
      OutboundTotals(o, es[..|es| - 1]);
    }
  }

  function Total(f: Event -> real, es: seq<Event>): real
    decreases |es|
  {
    if es == [] then 0.0 else Total(f, es[..|es| - 1]) + f(es[|es| - 1])
  }

  function PromptOf(e: Event): real { if CountsLlm(e) then e.data.decodedPayload.value.promptTokens.Or(0.0) else 0.0 }
  function CompletionOf(e: Event): real {
    if CountsLlm(e) then e.data.decodedPayload.value.completionTokens.Or(0.0) else 0.0
  }
  function CostOf(e: Event): real { if CountsLlm(e) then e.data.decodedPayload.value.estimatedCostUsd.Or(0.0) else 0.0 }

  /** The total an event reports, or else the sum of its two parts. */
  function TokensOf(e: Event): real {
    if CountsLlm(e) then e.data.decodedPayload.value.totalTokens.Or(PromptOf(e) + CompletionOf(e)) else 0.0
  }

  lemma {:induction false} LlmStep(l: Llm, e: Event)
    ensures var r := StepLlm(l, e);
      && r.callCount == l.callCount + (if CountsLlm(e) then 1 else 0)
      && r.promptTokens == l.promptTokens + PromptOf(e) && r.completionTokens == l.completionTokens + CompletionOf(e)
      && r.totalTokens == l.totalTokens + TokensOf(e) && r.estimatedCostUsd == l.estimatedCostUsd + CostOf(e)
      && (!CountsLlm(e) ==> r == l)
  {}

  /** Calls, tokens and cost add up over exactly the LLM events that carry a payload. */
  lemma {:induction false} LlmTotals(l: Llm, es: seq<Event>)
    ensures var r := Foldl(StepLlm, l, es);
      && r.callCount == l.callCount + Count(CountsLlm, es)
      && r.promptTokens == l.promptTokens + Total(PromptOf, es)
      && r.completionTokens == l.completionTokens + Total(CompletionOf, es)
      && r.totalTokens == l.totalTokens + Total(TokensOf, es)
      && r.estimatedCostUsd == l.estimatedCostUsd + Total(CostOf, es)
    ensures Count(CountsLlm, es) == 0 ==> Foldl(StepLlm, l, es) == l
    decreases |es|
  {
    if es != [] {
      LlmTotals(l, es[..|es| - 1]);
      LlmStep(Foldl(StepLlm, l, es[..|es| - 1]), es[|es| - 1]);
    }
  }

  /** No element of `es` satisfies `p`. */
  ghost predicate Absent(p: Event -> bool, es: seq<Event>) { forall i :: 0 <= i < |es| ==> !p(es[i]) }

  /**
   * The state a batch returns after reading the stored row back covers the whole log in the nine
   * stored columns, but counts outbound messages and LLM calls of that batch alone.  It agrees
   * with the fold over the whole log exactly when the earlier log held no such event.
   */
  lemma {:induction false} UnstoredTotalsRestartEachBatch(runId: string, earlier: seq<Event>, batch: seq<Event>)
    requires runId != ""
    ensures var whole := Apply(Empty(runId), earlier + batch);
            var returned := Apply(Reloaded(Apply(Empty(runId), earlier).cols), batch);
            && returned.cols == whole.cols
            && returned.outbound == Apply(Empty(runId), batch).outbound
            && returned.llm == Apply(Empty(runId), batch).llm
            && (returned.outbound == whole.outbound <==> Absent(IsSent, earlier) && Absent(IsSendFailure, earlier))
            && (returned.llm == whole.llm <==> Absent(CountsLlm, earlier))
  {
    var start := Empty(runId);
    var mid := Apply(start, earlier);
    var again := Reloaded(mid.cols);
    BatchesCompose(start, earlier, batch);
    RunIdKept(runId, start, earlier);
    ColumnsIndependent(runId, again, mid, batch);
    OutboundColumn(runId, start, earlier);
    OutboundColumn(runId, mid, batch);
    OutboundColumn(runId, again, batch);
    OutboundColumn(runId, start, batch);
    OutboundTotals(start.outbound, earlier);
    OutboundTotals(mid.outbound, batch);
    OutboundTotals(again.outbound, batch);
    LlmColumn(runId, start, earlier);
    LlmColumn(runId, mid, batch);
    LlmColumn(runId, again, batch);
    LlmColumn(runId, start, batch);
    LlmTotals(start.llm, earlier);
    LlmTotals(mid.llm, batch);
    LlmTotals(again.llm, batch);
    CountZero(IsSent, earlier);
    CountZero(IsSendFailure, earlier);
    CountZero(CountsLlm, earlier);
  }
}
