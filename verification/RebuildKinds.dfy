/** What a rebuild changes for all logs of a kind of events: exactly which kinds it is safe for, column by column. */
module RebuildKinds {
  import opened Prelude
  import opened Events
  import opened Projection
  import opened Batching
  import Windows
  import Summaries
  import opened Cache
  import opened Rebuild

  // ---- Every column, for all logs of a kind of events -----------------------------------------

  /** An event a rebuild sees whole. */
  predicate Bare(e: Event) { e.subject.None? && e.SpanId().None? && e.TraceId().None? }

  lemma {:induction false} BareFold(base: string, c: Columns, es: seq<Event>)
    requires forall i :: 0 <= i < |es| ==> Bare(es[i])
    ensures Foldl(ColumnStepper(base), c, Map(Strip, es)) == Foldl(ColumnStepper(base), c, es)
    decreases |es|
  {
    if es != [] {
      var n := |es| - 1;
      BareFold(base, c, es[..n]);
      MapIndex(Strip, es);
      assert Map(Strip, es)[..n] == Map(Strip, es[..n]);
      StripInvisibleIff(base, Foldl(ColumnStepper(base), c, es[..n]), es[n]);
    }
  }

  /** A rebuild of any log of such events, with anything applied live after it, comes out the same in every column. */
  ghost predicate AllSurvive(runId: string, kind: Event -> bool) {
    forall es: seq<Event>, live: seq<Event> ::
      Only(kind, es) ==> FoldColumns(runId, Map(Strip, es) + live) == FoldColumns(runId, es + live)
  }

  lemma {:induction false} BareSurvives(runId: string, es: seq<Event>, live: seq<Event>)
    requires forall i :: 0 <= i < |es| ==> Bare(es[i])
    ensures FoldColumns(runId, Map(Strip, es) + live) == FoldColumns(runId, es + live)
  {
    var step, start := ColumnStepper(runId), Empty(runId).cols;
    ColumnsFold(runId, Empty(runId), Map(Strip, es) + live);
    ColumnsFold(runId, Empty(runId), es + live);
    FoldlAppend(step, start, Map(Strip, es), live);
    FoldlAppend(step, start, es, live);
    BareFold(runId, start, es);
  }

  lemma {:induction false} NotBareShows(runId: string, kind: Event -> bool, e: Event)
    requires kind(e) && !Bare(e)
    ensures !AllSurvive(runId, kind)
  {
    OneEvent(runId, e);
    OneEvent(runId, Strip(e));
    StripInvisibleIff(runId, Empty(runId).cols, e);
    MapIndex(Strip, [e]);
    assert Map(Strip, [e]) + [] == [Strip(e)] && [e] + [] == [e];
    assert Only(kind, [e]);
  }

  /**
   * A rebuild loses nothing at all, for every log of a kind of events, if and only if no event of that
   * kind has a subject, a span or a trace id.
   */
  lemma {:induction false} AllSurviveIff(runId: string, kind: Event -> bool)
    ensures AllSurvive(runId, kind) <==> forall e: Event :: kind(e) ==> Bare(e)
  {
    if forall e: Event :: kind(e) ==> Bare(e) {
      forall es: seq<Event>, live: seq<Event> | Only(kind, es)
        ensures FoldColumns(runId, Map(Strip, es) + live) == FoldColumns(runId, es + live)
      {
        BareSurvives(runId, es, live);
      }
    } else {
      var e: Event :| kind(e) && !Bare(e);
      NotBareShows(runId, kind, e);
    }
  }

  // ---- Signals and artifacts, for all logs of a kind of events --------------------------------

  /** The signal column and the linked artifacts of a log, by themselves. */
  function SignalsOf(es: seq<Event>): seq<Signal> { Foldl(StepSignals, [], es) }

  function ArtifactsOf(es: seq<Event>): seq<string> { Foldl(StepTrace, NO_TRACE, es).linkedArtifacts }

  lemma {:induction false} ColumnsByThemselves(runId: string, es: seq<Event>)
    ensures FoldColumns(runId, es).signals == SignalsOf(es)
    ensures FoldColumns(runId, es).trace.linkedArtifacts == ArtifactsOf(es)
  {
    Windows.SignalColumn(runId, Empty(runId), es);
    Summaries.TraceColumn(runId, Empty(runId), es);
  }

  ghost predicate SignalsSurvive(runId: string, kind: Event -> bool) {
    forall es: seq<Event>, live: seq<Event> ::
      Only(kind, es) ==> FoldColumns(runId, Map(Strip, es) + live).signals == FoldColumns(runId, es + live).signals
  }

  /** Surviving shows, whatever the log, already without anything live after it. */
  lemma {:induction false} SignalsSurviveAlone(runId: string, kind: Event -> bool, es: seq<Event>)
    requires SignalsSurvive(runId, kind) && Only(kind, es)
    ensures SignalsOf(Map(Strip, es)) == SignalsOf(es)
  {
    ColumnsByThemselves(runId, es);
    ColumnsByThemselves(runId, Map(Strip, es));
    assert es + [] == es && Map(Strip, es) + [] == Map(Strip, es);
  }

  /** An emitted signal goes by the same name without its subject. */
  predicate SameName(f: Event) { f.SubjectId().Or(f.id) == f.id }

  predicate Hits(e: Event, id: string) { AckTarget(e) != "" && AckTarget(e) == id }

  /** An acknowledgement finds a signal of this name with its subject exactly if it does without. */
  predicate SameHit(e: Event, id: string) { Hits(Strip(e), id) == Hits(e, id) }

  /** No signal of the kind changes its name, and no acknowledgement of the kind finds another one of them. */
  ghost predicate SignalsUnread(kind: Event -> bool) {
    && (forall f: Event :: kind(f) && IsSignal(f) ==> SameName(f))
    && (forall e: Event, f: Event :: kind(e) && kind(f) && e.kind.SignalAcknowledged? && IsSignal(f) ==> SameHit(e, SignalOf(f).id))
  }

  /** Every listed signal was emitted by an event of the kind. */
  ghost predicate Named(kind: Event -> bool, s: seq<Signal>) {
    forall i :: 0 <= i < |s| ==> exists f: Event :: kind(f) && IsSignal(f) && SignalOf(f).id == s[i].id
  }

  lemma {:induction false} SignalStepSame(kind: Event -> bool, s: seq<Signal>, e: Event)
    requires SignalsUnread(kind) && Named(kind, s) && kind(e)
    ensures StepSignals(s, Strip(e)) == StepSignals(s, e) && Named(kind, StepSignals(s, e))
  {
    StripCore(e);
    if IsSignal(e) {
      assert SameName(e);
      var all := s + [SignalOf(e)];
      assert SignalOf(Strip(e)) == SignalOf(e) && all[|s|].id == SignalOf(e).id;
    } else if e.kind.SignalAcknowledged? {
      AckSame(kind, s, e);
    }
  }

  lemma {:induction false} AckSame(kind: Event -> bool, s: seq<Signal>, e: Event)
    requires SignalsUnread(kind) && Named(kind, s) && kind(e) && e.kind.SignalAcknowledged?
    ensures Acknowledge(s, Strip(e)) == Acknowledge(s, e) && Named(kind, Acknowledge(s, e))
  {
    StripCore(e);
    var t, t' := AckTarget(e), AckTarget(Strip(e));
    var i, j := FindSignal(s, t), FindSignal(s, t');
    if i < |s| {
      var f: Event :| kind(f) && IsSignal(f) && SignalOf(f).id == s[i].id;
      assert SameHit(e, SignalOf(f).id);
    }
    if j < |s| {
      var f: Event :| kind(f) && IsSignal(f) && SignalOf(f).id == s[j].id;
      assert SameHit(e, SignalOf(f).id);
    }
  }

  lemma {:induction false} SignalsSame(kind: Event -> bool, es: seq<Event>)
    requires SignalsUnread(kind) && Only(kind, es)
    ensures SignalsOf(Map(Strip, es)) == SignalsOf(es) && Named(kind, SignalsOf(es))
    decreases |es|
  {
    if es != [] {
      var n := |es| - 1;
      SignalsSame(kind, es[..n]);
      MapIndex(Strip, es);
      assert Map(Strip, es)[..n] == Map(Strip, es[..n]);
      SignalStepSame(kind, SignalsOf(es[..n]), es[n]);
    }
  }

  lemma {:induction false} OneSignal(f: Event)
    requires IsSignal(f)
    ensures SignalsOf([f]) == [SignalOf(f)]
  {
    assert [f][..0] == [] && SignalsOf([]) == [];
    assert SignalsOf([f]) == StepSignals([], f) && [] + [SignalOf(f)] == [SignalOf(f)];
  }

  lemma {:induction false} SignalThenAck(f: Event, e: Event)
    requires IsSignal(f) && e.kind.SignalAcknowledged?
    ensures SignalsOf([f, e]) == [if Hits(e, SignalOf(f).id) then Acknowledged(SignalOf(f), e) else SignalOf(f)]
  {
    OneSignal(f);
    assert [f, e][..1] == [f];
  }

  lemma {:induction false} RenamingShows(kind: Event -> bool, f: Event)
    requires kind(f) && IsSignal(f) && !SameName(f)
    ensures exists es: seq<Event> :: Only(kind, es) && SignalsOf(Map(Strip, es)) != SignalsOf(es)
  {
    StripCore(f);
    OneSignal(f);
    OneSignal(Strip(f));
    MapIndex(Strip, [f]);
    assert Map(Strip, [f]) == [Strip(f)] && Only(kind, [f]);
    assert SignalsOf([f])[0].id != SignalsOf([Strip(f)])[0].id;
  }

  lemma {:induction false} MissShows(kind: Event -> bool, e: Event, f: Event)
    requires kind(e) && kind(f) && e.kind.SignalAcknowledged? && IsSignal(f) && SameName(f)
      && !SameHit(e, SignalOf(f).id)
    ensures exists es: seq<Event> :: Only(kind, es) && SignalsOf(Map(Strip, es)) != SignalsOf(es)
  {
    StripCore(e);
    StripCore(f);
    SignalThenAck(f, e);
    SignalThenAck(Strip(f), Strip(e));
    MapIndex(Strip, [f, e]);
    assert Map(Strip, [f, e]) == [Strip(f), Strip(e)] && Only(kind, [f, e]);
    assert SignalsOf([f, e])[0].acknowledgedAt != SignalsOf([Strip(f), Strip(e)])[0].acknowledgedAt;
  }

  /**
   * The signal list, acknowledgements included, survives a rebuild of every log of a kind of events if
   * and only if no signal of the kind is named otherwise by its subject and no acknowledgement of the
   * kind finds its signal, or misses it, through its subject.
   */
  lemma {:induction false} SignalsSurviveIff(runId: string, kind: Event -> bool)
    ensures SignalsSurvive(runId, kind) <==> SignalsUnread(kind)
  {
    if SignalsUnread(kind) {
      forall es: seq<Event>, live: seq<Event> | Only(kind, es)
        ensures FoldColumns(runId, Map(Strip, es) + live).signals == FoldColumns(runId, es + live).signals
      {
        SignalsSame(kind, es);
        ColumnsByThemselves(runId, Map(Strip, es) + live);
        ColumnsByThemselves(runId, es + live);
        FoldlAppend(StepSignals, [], Map(Strip, es), live);
        FoldlAppend(StepSignals, [], es, live);
      }
    } else {
      SignalsReadShows(kind);
      var es: seq<Event> :| Only(kind, es) && SignalsOf(Map(Strip, es)) != SignalsOf(es);
      if SignalsSurvive(runId, kind) { SignalsSurviveAlone(runId, kind, es); }
    }
  }

  lemma {:induction false} SignalsReadShows(kind: Event -> bool)
    requires !SignalsUnread(kind)
    ensures exists es: seq<Event> :: Only(kind, es) && SignalsOf(Map(Strip, es)) != SignalsOf(es)
  {
    if f: Event :| kind(f) && IsSignal(f) && !SameName(f) {
      RenamingShows(kind, f);
    } else {
      var e: Event, f: Event :|
        kind(e) && kind(f) && e.kind.SignalAcknowledged? && IsSignal(f) && !SameHit(e, SignalOf(f).id);
      MissShows(kind, e, f);
    }
  }

  ghost predicate ArtifactsSurvive(runId: string, kind: Event -> bool) {
    forall es: seq<Event>, live: seq<Event> :: Only(kind, es) ==>
      FoldColumns(runId, Map(Strip, es) + live).trace.linkedArtifacts == FoldColumns(runId, es + live).trace.linkedArtifacts
  }

  /** What was linked before is all that a later fold of the links reads. */
  lemma {:induction false} ArtifactsGoOn(a: TraceSummary, b: TraceSummary, live: seq<Event>)
    requires a.linkedArtifacts == b.linkedArtifacts
    ensures Foldl(StepTrace, a, live).linkedArtifacts == Foldl(StepTrace, b, live).linkedArtifacts
    decreases |live|
  {
    if live != [] {
      ArtifactsGoOn(a, b, live[..|live| - 1]);
    }
  }

  lemma {:induction false} ArtifactsSame(es: seq<Event>)
    requires forall i :: 0 <= i < |es| && es[i].kind.ArtifactCreated? ==> SameName(es[i])
    ensures ArtifactsOf(Map(Strip, es)) == ArtifactsOf(es)
    decreases |es|
  {
    if es != [] {
      var n := |es| - 1;
      ArtifactsSame(es[..n]);
      MapIndex(Strip, es);
      assert Map(Strip, es)[..n] == Map(Strip, es[..n]);
      StripCore(es[n]);
    }
  }

  /**
   * The linked artifacts survive a rebuild of every log of a kind of events if and only if none is
   * named otherwise by its subject.
   */
  lemma {:induction false} ArtifactsSurviveIff(runId: string, kind: Event -> bool)
    ensures ArtifactsSurvive(runId, kind) <==> forall e: Event :: kind(e) && e.kind.ArtifactCreated? ==> SameName(e)
  {
    if forall e: Event :: kind(e) && e.kind.ArtifactCreated? ==> SameName(e) {
      forall es: seq<Event>, live: seq<Event> | Only(kind, es)
        ensures FoldColumns(runId, Map(Strip, es) + live).trace.linkedArtifacts == FoldColumns(runId, es + live).trace.linkedArtifacts
      {
        ArtifactsSame(es);
        ColumnsByThemselves(runId, Map(Strip, es) + live);
        ColumnsByThemselves(runId, es + live);
        FoldlAppend(StepTrace, NO_TRACE, Map(Strip, es), live);
        FoldlAppend(StepTrace, NO_TRACE, es, live);
        ArtifactsGoOn(Foldl(StepTrace, NO_TRACE, Map(Strip, es)), Foldl(StepTrace, NO_TRACE, es), live);
      }
    } else {
      var e: Event :| kind(e) && e.kind.ArtifactCreated? && !SameName(e);
      RelinkingShows(runId, kind, e);
    }
  }

  lemma {:induction false} RelinkingShows(runId: string, kind: Event -> bool, e: Event)
    requires kind(e) && e.kind.ArtifactCreated? && !SameName(e)
    ensures !ArtifactsSurvive(runId, kind)
  {
    OneArtifact(e);
    StripCore(e);
    OneArtifact(Strip(e));
    MapIndex(Strip, [e]);
    ColumnsByThemselves(runId, [e]);
    ColumnsByThemselves(runId, [Strip(e)]);
    assert ArtifactsOf([e])[0] != ArtifactsOf([Strip(e)])[0];
    assert Map(Strip, [e]) + [] == [Strip(e)] && [e] + [] == [e] && Only(kind, [e]);
  }

  lemma {:induction false} OneArtifact(e: Event)
    requires e.kind.ArtifactCreated?
    ensures ArtifactsOf([e]) == [e.SubjectId().Or(e.id)]
  {
    assert [e][..0] == [] && Foldl(StepTrace, NO_TRACE, []) == NO_TRACE;
    assert ArtifactsOf([e]) == StepTrace(NO_TRACE, e).linkedArtifacts;
  }
}
