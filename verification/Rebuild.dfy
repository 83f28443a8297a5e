/**
 * What a rebuild changes.  `rebuildProjection` reads rows as they are stored, so the reducer sees
 * every event without its subject and trace.
 */
module Rebuild {
  import opened Prelude
  import opened Events
  import opened Projection
  import opened Batching
  import Windows
  import Summaries
  import RunLaws
  import opened Cache

  // ---- Two readings of an event that the reducer may or may not tell apart --------------------

  /** The two events agree on everything the reducer reads except, possibly, subject and trace. */
  ghost predicate SameCore(e: Event, f: Event) {
    e.id == f.id && e.runId == f.runId && e.seqNo == f.seqNo && e.ts == f.ts && e.kind == f.kind && e.data == f.data
  }

  lemma {:induction false} SameRun(base: string, r: RunSummary, e: Event, f: Event)
    requires SameCore(e, f)
    ensures StepRun(base, r, e) == StepRun(base, r, f)
  {}

  lemma {:induction false} SameActors(a: Actors, run: RunStatus, e: Event, f: Event)
    requires SameCore(e, f)
    requires e.kind.ParticipantSeen? && e.data.participantId.None? ==> e.subject == f.subject
    ensures StepActors(a, run, e) == StepActors(a, run, f)
  {
    assert Sender(e) == Sender(f) && MessageTypeOf(e) == MessageTypeOf(f) && SweepOutcome(e) == SweepOutcome(f);
    assert MessageText(e, "message.received") == MessageText(f, "message.received");
    if e.kind.MessageReceived? {
      SameReach(a, run, e, f);
    }
  }

  lemma {:induction false} SameReach(a: Actors, run: RunStatus, e: Event, f: Event)
    requires SameCore(e, f)
    ensures Reach(a, run, e) == Reach(a, run, f)
    ensures Declared(a, run, e) == Declared(a, run, f)
  {
    assert Sender(e) == Sender(f) && MessageText(e, "message.received") == MessageText(f, "message.received");
    var a1 := Touch(a, run, Sender(e), e.ts, Active, Some(MessageText(e, "message.received")));
    assert Recipients(e, ParticipantIds(a1.participants)) == Recipients(f, ParticipantIds(a1.participants));
  }

  lemma {:induction false} SameEdges(es: seq<Edge>, declared: seq<string>, e: Event, f: Event)
    requires SameCore(e, f)
    ensures StepEdges(es, declared, e) == StepEdges(es, declared, f)
  {
    assert Sender(e) == Sender(f) && MessageTypeOf(e) == MessageTypeOf(f);
    assert Recipients(e, declared) == Recipients(f, declared);
    assert MessageText(e, "message.received") == MessageText(f, "message.received");
  }

  /** The proposal names itself in its payload, so its subject is not consulted. */
  predicate ProposalIsExplicit(e: Event) {
    var p := e.data.decodedPayload;
    p.Some? && Truthy(p.value.proposalId.OrElse(p.value.requestId))
  }

  lemma {:induction false} SameDecision(d: Option<Decision>, e: Event, f: Event)
    requires SameCore(e, f)
    requires IsProposal(e) && !ProposalIsExplicit(e) ==> e.subject == f.subject
    ensures StepDecision(d, e) == StepDecision(d, f)
  {
    if IsProposal(e) {
      SameProposal(e, f);
    }
  }

  lemma {:induction false} SameProposal(e: Event, f: Event)
    requires SameCore(e, f) && (!ProposalIsExplicit(e) ==> e.subject == f.subject)
    ensures ContributionOf(e) == ContributionOf(f) && ProposalIdOf(e) == ProposalIdOf(f)
    ensures ProposalAction(e) == ProposalAction(f) && ProposalReasons(e) == ProposalReasons(f)
  {}

  lemma {:induction false} SamePolicy(p: Policy, ps: seq<Participant>, e: Event, f: Event)
    requires SameCore(e, f)
    requires IsProposal(e) && !ProposalIsExplicit(e) ==> e.subject == f.subject
    requires e.kind.PolicyCommitmentEvaluated? && !NamesCommitment(e) ==> e.subject == f.subject
    ensures StepPolicy(p, ps, e) == StepPolicy(p, ps, f)
  {
    if e.kind.PolicyCommitmentEvaluated? {
      assert EvaluationOf(e) == EvaluationOf(f);
    }
    if IsProposal(e) {
      assert ProposalIdOf(e) == ProposalIdOf(f);
    }
  }

  lemma {:induction false} SameLists(c: Columns, e: Event, f: Event)
    requires SameCore(e, f)
    ensures StepProgress(c.progress, e) == StepProgress(c.progress, f)
    ensures e.subject == f.subject ==> StepSignals(c.signals, e) == StepSignals(c.signals, f)
    ensures e.subject == f.subject ==> StepTimeline(c.timeline, e) == StepTimeline(c.timeline, f)
    ensures e.subject == f.subject && e.TraceId() == f.TraceId() && e.SpanId() == f.SpanId()
            ==> StepTrace(c.trace, e) == StepTrace(c.trace, f)
  {
    if e.subject == f.subject {
      assert SignalOf(e) == SignalOf(f) && AckTarget(e) == AckTarget(f);
    }
  }

  lemma {:induction false} SameStep(base: string, c: Columns, e: Event, f: Event)
    requires SameCore(e, f) && e.subject == f.subject && e.TraceId() == f.TraceId() && e.SpanId() == f.SpanId()
    ensures StepColumns(base, c, e) == StepColumns(base, c, f)
  {
    SameRun(base, c.run, e, f);
    SameActors(c.actors, c.run.status, e, f);
    SameReach(c.actors, c.run.status, e, f);
    SameEdges(c.edges, Declared(c.actors, c.run.status, e), e, f);
    SameDecision(c.decision, e, f);
    SameLists(c, e, f);
    SamePolicy(c.policy, c.actors.participants, e, f);
  }

  // ---- One event ------------------------------------------------------------------------------

  lemma {:induction false} StripCore(e: Event)
    ensures SameCore(Strip(e), e) && Strip(e).subject.None? && Strip(e).TraceId().None? && Strip(e).SpanId().None?
  {}

  lemma {:induction false} LastEntry(t: Timeline, e: Event)
    ensures var r := StepTimeline(t, e).recent; r != [] && r[|r| - 1].subject == e.subject
  {}

  /**
   * A rebuild folds an event as the live fold does exactly when the event has no subject and no
   * span, and its trace id, if any, is the one already recorded.
   */
  lemma {:induction false} StripInvisibleIff(base: string, c: Columns, e: Event)
    ensures StepColumns(base, c, Strip(e)) == StepColumns(base, c, e)
       <==> e.subject.None? && e.SpanId().None? && (e.TraceId().None? || e.TraceId() == c.trace.traceId)
  {
    var f := Strip(e);
    StripCore(e);
    LastEntry(c.timeline, e);
    LastEntry(c.timeline, f);
    if e.subject.None? {
      SameRun(base, c.run, f, e);
      SameActors(c.actors, c.run.status, f, e);
      SameReach(c.actors, c.run.status, f, e);
      SameEdges(c.edges, Declared(c.actors, c.run.status, e), f, e);
      SameDecision(c.decision, f, e);
      SameLists(c, f, e);
      SamePolicy(c.policy, c.actors.participants, f, e);
      TraceTells(c.trace, e);
    }
  }

  lemma {:induction false} TraceTells(t: TraceSummary, e: Event)
    requires e.subject.None?
    ensures StepTrace(t, Strip(e)) == StepTrace(t, e)
      <==> e.SpanId().None? && (e.TraceId().None? || e.TraceId() == t.traceId)
  {
    StripCore(e);
  }

  /** Every column but signals and trace, and the counters of the timeline. */
  ghost predicate CoreAgrees(c: Columns, d: Columns) {
    && c.run == d.run && c.actors == d.actors && c.edges == d.edges && c.decision == d.decision
    && c.progress == d.progress && c.policy == d.policy
    && c.timeline.latestSeq == d.timeline.latestSeq && c.timeline.totalEvents == d.timeline.totalEvents
  }

  /** The proposal id the payload gives. */
  function NamedProposal(e: Event): Option<string> {
    if e.data.decodedPayload.Some? then e.data.decodedPayload.value.proposalId.OrElse(e.data.decodedPayload.value.requestId) else None
  }

  predicate NamesCommitment(e: Event) { e.data.decodedPayload.Some? && e.data.decodedPayload.value.commitmentId.Some? }

  /**
   * Participants, decision and policy fall back to the subject where the data name nothing.  The
   * event takes no such fallback, or one that leads to the same place as having no subject.
   */
  predicate SubjectUnread(e: Event) {
    e.subject.None? ||
    (&& (e.kind.ParticipantSeen? ==> e.data.participantId.Some? || e.subject.value.id == "")
     && (IsProposal(e) ==> NamedProposal(e).Some? && (NamedProposal(e) != Some("") || e.subject.value.id == "proposal"))
     && (e.kind.PolicyCommitmentEvaluated? ==> NamesCommitment(e) || e.subject.value.id == ""))
  }

  lemma {:induction false} UnreadActors(a: Actors, run: RunStatus, e: Event)
    requires SubjectUnread(e)
    ensures StepActors(a, run, Strip(e)) == StepActors(a, run, e)
  {
    StripCore(e);
    if !e.kind.ParticipantSeen? || e.data.participantId.Some? || e.subject.None? {
      SameActors(a, run, Strip(e), e);
    }
  }

  lemma {:induction false} UnreadDecision(d: Option<Decision>, e: Event)
    requires SubjectUnread(e)
    ensures StepDecision(d, Strip(e)) == StepDecision(d, e)
  {
    StripCore(e);
    if IsProposal(e) && NamedProposal(e) == Some("") && e.subject.Some? {
      assert ContributionOf(Strip(e)) == ContributionOf(e) && ProposalIdOf(Strip(e)) == ProposalIdOf(e) == "";
    } else {
      SameDecision(d, Strip(e), e);
    }
  }

  lemma {:induction false} UnreadPolicy(p: Policy, ps: seq<Participant>, e: Event)
    requires SubjectUnread(e)
    ensures StepPolicy(p, ps, Strip(e)) == StepPolicy(p, ps, e)
  {
    StripCore(e);
    if IsProposal(e) {
      assert ProposalIdOf(Strip(e)) == ProposalIdOf(e);
    } else if e.kind.PolicyCommitmentEvaluated? {
      assert EvaluationOf(Strip(e)) == EvaluationOf(e);
    } else {
      SamePolicy(p, ps, Strip(e), e);
    }
  }

  lemma {:induction false} StripStep(base: string, c: Columns, d: Columns, e: Event)
    requires CoreAgrees(c, d) && SubjectUnread(e)
    ensures CoreAgrees(StepColumns(base, c, Strip(e)), StepColumns(base, d, e))
  {
    var f := Strip(e);
    StripCore(e);
    SameRun(base, c.run, f, e);
    UnreadActors(c.actors, c.run.status, e);
    SameReach(c.actors, c.run.status, f, e);
    SameEdges(c.edges, Declared(c.actors, c.run.status, e), f, e);
    UnreadDecision(c.decision, e);
    SameLists(c, f, e);
    UnreadPolicy(c.policy, c.actors.participants, e);
  }

  lemma {:induction false} OneEvent(runId: string, e: Event)
    ensures FoldColumns(runId, [e]) == StepColumns(runId, Empty(runId).cols, e)
  {
    ColumnsFold(runId, Empty(runId), [e]);
    assert [e][..0] == [];
  }

  /** A fallback taken shows in the very first event. */
  lemma {:induction false} FallbackShows(runId: string, e: Event)
    requires !SubjectUnread(e)
    ensures var c := Empty(runId).cols;
      || StepActors(c.actors, c.run.status, Strip(e)) != StepActors(c.actors, c.run.status, e)
      || StepDecision(c.decision, Strip(e)) != StepDecision(c.decision, e)
      || StepPolicy(c.policy, c.actors.participants, Strip(e)) != StepPolicy(c.policy, c.actors.participants, e)
  {
    var c, id := Empty(runId).cols, e.subject.value.id;
    StripCore(e);
    if e.kind.ParticipantSeen? {
      assert Declare(c.actors, id).participants[0].participantId == id;
      assert Declare(c.actors, "").participants[0].participantId == "";
    } else if IsProposal(e) {
      var d, d' := StepDecision(None, e).value, StepDecision(None, Strip(e)).value;
      if NamedProposal(e).Some? {
        assert d.action == id && d'.action == "proposal";
      } else {
        assert d.proposalId == Some(id) && d'.proposalId == Some("");
        assert id == "" ==> d.action == "" && d'.action == "proposal";
      }
    } else {
      var p, p' := StepPolicy(c.policy, [], e), StepPolicy(c.policy, [], Strip(e));
      assert p.commitmentEvaluations[0].commitmentId == id && p'.commitmentEvaluations[0].commitmentId == "";
    }
  }

  /**
   * For one event, the condition is exact: a rebuild of the log holding it agrees on the core columns
   * if and only if.
   */
  lemma {:induction false} CoreAgreesOnOneIff(runId: string, e: Event)
    ensures CoreAgrees(FoldColumns(runId, [Strip(e)]), FoldColumns(runId, [e])) <==> SubjectUnread(e)
  {
    OneEvent(runId, e);
    OneEvent(runId, Strip(e));
    if SubjectUnread(e) {
      StripStep(runId, Empty(runId).cols, Empty(runId).cols, e);
    } else {
      FallbackShows(runId, e);
    }
  }

  // ---- Whole logs -----------------------------------------------------------------------------

  lemma {:induction false} StripFold(base: string, c: Columns, d: Columns, es: seq<Event>)
    requires CoreAgrees(c, d) && forall i :: 0 <= i < |es| ==> SubjectUnread(es[i])
    ensures CoreAgrees(Foldl(ColumnStepper(base), c, Map(Strip, es)), Foldl(ColumnStepper(base), d, es))
    decreases |es|
  {
    if es != [] {
      var n := |es| - 1;
      StripFold(base, c, d, es[..n]);
      MapIndex(Strip, es);
      assert Map(Strip, es)[..n] == Map(Strip, es[..n]);
      StripStep(base, Foldl(ColumnStepper(base), c, Map(Strip, es[..n])), Foldl(ColumnStepper(base), d, es[..n]), es[n]);
    }
  }

  /** The core columns never look at the others. */
  lemma {:induction false} CoreStep(base: string, c: Columns, d: Columns, e: Event)
    requires CoreAgrees(c, d)
    ensures CoreAgrees(StepColumns(base, c, e), StepColumns(base, d, e))
  {}

  lemma {:induction false} CoreFold(base: string, c: Columns, d: Columns, es: seq<Event>)
    requires CoreAgrees(c, d)
    ensures CoreAgrees(Foldl(ColumnStepper(base), c, es), Foldl(ColumnStepper(base), d, es))
    decreases |es|
  {
    if es != [] {
      var n := |es| - 1;
      CoreFold(base, c, d, es[..n]);
      CoreStep(base, Foldl(ColumnStepper(base), c, es[..n]), Foldl(ColumnStepper(base), d, es[..n]), es[n]);
    }
  }

  /**
   * A rebuild over a prefix of the log, followed by live batches, agrees with the live fold of the
   * whole log on every column that reads neither subject nor trace, for every log whose rebuilt
   * part takes no fallback to the subject.
   */
  lemma {:induction false} RebuildAgreesOnCore(runId: string, es: seq<Event>, live: seq<Event>)
    requires forall i :: 0 <= i < |es| ==> SubjectUnread(es[i])
    ensures CoreAgrees(FoldColumns(runId, Map(Strip, es) + live), FoldColumns(runId, es + live))
  {
    var step, start := ColumnStepper(runId), Empty(runId).cols;
    ColumnsFold(runId, Empty(runId), Map(Strip, es) + live);
    ColumnsFold(runId, Empty(runId), es + live);
    FoldlAppend(step, start, Map(Strip, es), live);
    FoldlAppend(step, start, es, live);
    StripFold(runId, start, start, es);
    CoreFold(runId, Foldl(step, start, Map(Strip, es)), Foldl(step, start, es), live);
  }

  /**
   * Whatever log of such events is rebuilt, and whatever is applied live after it, the core columns
   * come out the same.
   */
  ghost predicate CoreSurvives(runId: string, kind: Event -> bool) {
    forall es: seq<Event>, live: seq<Event> ::
      Only(kind, es) ==> CoreAgrees(FoldColumns(runId, Map(Strip, es) + live), FoldColumns(runId, es + live))
  }

  ghost predicate Only(kind: Event -> bool, es: seq<Event>) { forall i :: 0 <= i < |es| ==> kind(es[i]) }

  /**
   * The exact condition for whole logs: a rebuild is safe for the core columns of every log of a
   * given kind of events if and only if no event of that kind falls back to its subject.
   */
  lemma {:induction false} CoreSurvivesIff(runId: string, kind: Event -> bool)
    ensures CoreSurvives(runId, kind) <==> forall e: Event :: kind(e) ==> SubjectUnread(e)
  {
    if forall e: Event :: kind(e) ==> SubjectUnread(e) {
      forall es: seq<Event>, live: seq<Event> | Only(kind, es)
        ensures CoreAgrees(FoldColumns(runId, Map(Strip, es) + live), FoldColumns(runId, es + live))
      {
        RebuildAgreesOnCore(runId, es, live);
      }
    } else {
      var e: Event :| kind(e) && !SubjectUnread(e);
      OneIsEnough(runId, kind, e);
    }
  }

  lemma {:induction false} OneIsEnough(runId: string, kind: Event -> bool, e: Event)
    requires kind(e) && !SubjectUnread(e)
    ensures !CoreSurvives(runId, kind)
  {
    CoreAgreesOnOneIff(runId, e);
    MapIndex(Strip, [e]);
    assert Map(Strip, [e]) + [] == [Strip(e)] && [e] + [] == [e];
    assert Only(kind, [e]);
  }

  predicate HasSubject(e: Event) { e.subject.Some? }

  /** The timeline survives a rebuild exactly when none of its last 50 events has a subject. */
  lemma {:induction false} TimelineRebuiltIff(runId: string, es: seq<Event>)
    ensures FoldColumns(runId, Map(Strip, es)).timeline == FoldColumns(runId, es).timeline
       <==> true !in Last(Map(HasSubject, es), TIMELINE_WINDOW)
  {
    Windows.TimelineColumn(runId, Empty(runId), Map(Strip, es));
    Windows.TimelineColumn(runId, Empty(runId), es);
    Windows.TimelineWindow(Map(Strip, es));
    Windows.TimelineWindow(es);
    EntriesStripped(es);
    LastDiffers(Map(EntryOf, Map(Strip, es)), Map(EntryOf, es), Map(HasSubject, es), TIMELINE_WINDOW);
  }

  lemma {:induction false} EntriesStripped(es: seq<Event>)
    ensures forall i :: 0 <= i < |es| ==> (Map(EntryOf, Map(Strip, es))[i] == Map(EntryOf, es)[i] <==> !Map(HasSubject, es)[i])
    ensures es != [] ==> Map(Strip, es)[|es| - 1].seqNo == es[|es| - 1].seqNo
  {
    MapIndex(Strip, es);
    MapIndex(EntryOf, es);
    MapIndex(EntryOf, Map(Strip, es));
    MapIndex(HasSubject, es);
  }

  ghost predicate Untraced(es: seq<Event>) {
    forall i :: 0 <= i < |es| ==> es[i].SpanId().None? && es[i].TraceId().None?
  }

  predicate SameTraceIds(t: TraceSummary, u: TraceSummary) {
    t.spanCount == u.spanCount && t.traceId == u.traceId && t.lastSpanId == u.lastSpanId
  }

  const NO_TRACE := TraceSummary(None, 0, None, [])

  lemma {:induction false} UntracedIff(es: seq<Event>)
    ensures SameTraceIds(Foldl(StepTrace, NO_TRACE, es), NO_TRACE) <==> Untraced(es)
  {
    Summaries.TraceSummarizes(es);
    LatestNone(es);
    CountZero(Summaries.HasSpan, es);
  }

  lemma {:induction false} StrippedUntraced(es: seq<Event>)
    ensures Untraced(Map(Strip, es))
  {
    MapIndex(Strip, es);
  }

  /** Trace and span ids survive a rebuild exactly when the log has none. */
  lemma {:induction false} TraceRebuiltIff(runId: string, es: seq<Event>)
    ensures SameTraceIds(FoldColumns(runId, Map(Strip, es)).trace, FoldColumns(runId, es).trace) <==> Untraced(es)
  {
    Summaries.TraceColumn(runId, Empty(runId), Map(Strip, es));
    Summaries.TraceColumn(runId, Empty(runId), es);
    StrippedUntraced(es);
    UntracedIff(Map(Strip, es));
    UntracedIff(es);
  }

  lemma {:induction false} LatestNone(es: seq<Event>)
    ensures RunLaws.Latest((e: Event) => e.TraceId(), es).None?
      <==> forall i :: 0 <= i < |es| ==> es[i].TraceId().None?
    ensures RunLaws.Latest((e: Event) => e.SpanId(), es).None? <==> forall i :: 0 <= i < |es| ==> es[i].SpanId().None?
    decreases |es|
  {
    if es != [] {
      LatestNone(es[..|es| - 1]);
    }
  }

  // ---- Signals --------------------------------------------------------------------------------

  function SignalId(s: Signal): string { s.id }

  predicate IsSignal(e: Event) { e.kind.SignalEmitted? }

  /** The ids of the emitted signals of a log, in order. */
  function EmittedIds(es: seq<Event>): seq<string> { Summaries.Picked(IsSignal, (e: Event) => SignalOf(e).id, es) }

  /** Whatever is acknowledged, the stored signals are, by id, the last 200 emitted. */
  lemma {:induction false} SignalIds(es: seq<Event>)
    ensures Map(SignalId, Foldl(StepSignals, [], es)) == Last(EmittedIds(es), SIGNAL_WINDOW)
    decreases |es|
  {
    if es != [] {
      var n := |es| - 1;
      SignalIds(es[..n]);
      SignalStepIds(Foldl(StepSignals, [], es[..n]), es[n]);
      if IsSignal(es[n]) {
        LastAppend(EmittedIds(es[..n]), [SignalOf(es[n]).id], SIGNAL_WINDOW);
      } else {
        assert EmittedIds(es[..n]) + [] == EmittedIds(es[..n]);
      }
    }
  }

  lemma {:induction false} SignalStepIds(s: seq<Signal>, e: Event)
    ensures Map(SignalId, StepSignals(s, e))
         == if IsSignal(e) then Last(Map(SignalId, s) + [SignalOf(e).id], SIGNAL_WINDOW) else Map(SignalId, s)
  {
    MapIndex(SignalId, s);
    MapIndex(SignalId, StepSignals(s, e));
    if IsSignal(e) {
      var all := s + [SignalOf(e)];
      MapIndex(SignalId, all);
      assert Map(SignalId, all) == Map(SignalId, s) + [SignalOf(e).id];
    }
  }

  /** The emitted signals whose subject names them otherwise than their event id. */
  function Renamed(es: seq<Event>): seq<bool> {
    Summaries.Picked(IsSignal, (e: Event) => e.SubjectId().Or(e.id) != e.id, es)
  }

  lemma {:induction false} RenamedTells(es: seq<Event>)
    ensures |EmittedIds(Map(Strip, es))| == |EmittedIds(es)| == |Renamed(es)|
    ensures forall i :: 0 <= i < |Renamed(es)| ==> (EmittedIds(Map(Strip, es))[i] == EmittedIds(es)[i] <==> !Renamed(es)[i])
    decreases |es|
  {
    if es != [] {
      var n := |es| - 1;
      RenamedTells(es[..n]);
      MapIndex(Strip, es);
      assert Map(Strip, es)[..n] == Map(Strip, es[..n]);
    }
  }

  /** The ids of the signal list survive a rebuild exactly when none of the last 200 signals is named by its subject. */
  lemma {:induction false} SignalsRenamedIff(runId: string, es: seq<Event>)
    ensures Map(SignalId, FoldColumns(runId, Map(Strip, es)).signals) == Map(SignalId, FoldColumns(runId, es).signals)
       <==> true !in Last(Renamed(es), SIGNAL_WINDOW)
  {
    Windows.SignalColumn(runId, Empty(runId), Map(Strip, es));
    Windows.SignalColumn(runId, Empty(runId), es);
    SignalIds(Map(Strip, es));
    SignalIds(es);
    RenamedTells(es);
    LastDiffers(EmittedIds(Map(Strip, es)), EmittedIds(es), Renamed(es), SIGNAL_WINDOW);
  }

  lemma {:induction false} LastDiffers<T>(a: seq<T>, b: seq<T>, differ: seq<bool>, n: nat)
    requires |a| == |b| == |differ| && forall i :: 0 <= i < |a| ==> (a[i] == b[i] <==> !differ[i])
    ensures Last(a, n) == Last(b, n) <==> true !in Last(differ, n)
  {
    var cut := if |a| <= n then 0 else |a| - n;
    assert Last(a, n) == a[cut..] && Last(b, n) == b[cut..] && Last(differ, n) == differ[cut..];
    var x, y, z := a[cut..], b[cut..], differ[cut..];
    assert forall i :: 0 <= i < |z| ==> (x[i] == y[i] <==> !z[i]);
    if true !in z {
      assert forall i :: 0 <= i < |z| ==> z[i] in z;
    }
  }
}
