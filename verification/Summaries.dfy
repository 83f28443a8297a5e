/** The trace, progress and edge columns, read off the whole log. */
module Summaries {
  import opened Prelude
  import opened Events
  import opened Projection
  import opened Batching
  import opened RunLaws

  predicate HasSpan(e: Event) { e.SpanId().Some? }
  predicate IsArtifact(e: Event) { e.kind.ArtifactCreated? }
  predicate IsProgress(e: Event) { e.kind.ProgressReported? }

  function ArtifactId(e: Event): string { e.SubjectId().Or(e.id) }

  lemma {:induction false} TraceColumn(base: string, s: State, es: seq<Event>)
    ensures Fold(base, s, es).cols.trace == Foldl(StepTrace, s.cols.trace, es)
  {
    FoldlProject(Stepper(base), StepTrace, (s: State) => s.cols.trace, s, es);
  }

  lemma {:induction false} ProgressColumn(base: string, s: State, es: seq<Event>)
    ensures Fold(base, s, es).cols.progress == Foldl(StepProgress, s.cols.progress, es)
  {
    FoldlProject(Stepper(base), StepProgress, (s: State) => s.cols.progress, s, es);
  }

  ghost predicate Distinct(ids: seq<string>) { forall i, j :: 0 <= i < j < |ids| ==> ids[i] != ids[j] }

  /**
   * The trace summary: every span counted once, the latest trace and span ids, and the artifacts of
   * the log, each listed once.
   */
  lemma {:induction false} TraceSummarizes(es: seq<Event>)
    ensures var t := Foldl(StepTrace, TraceSummary(None, 0, None, []), es);
      && t.spanCount == Count(HasSpan, es)
      && t.traceId == Latest((e: Event) => e.TraceId(), es)
      && t.lastSpanId == Latest((e: Event) => e.SpanId(), es)
      && Distinct(t.linkedArtifacts)
      && forall id :: id in t.linkedArtifacts <==> exists i :: 0 <= i < |es| && IsArtifact(es[i]) && ArtifactId(es[i]) == id
    decreases |es|
  {
    if es != [] {
      var n := |es| - 1;
      TraceSummarizes(es[..n]);
      var t := Foldl(StepTrace, TraceSummary(None, 0, None, []), es);
      forall id | exists i :: 0 <= i < |es| && IsArtifact(es[i]) && ArtifactId(es[i]) == id ensures id in t.linkedArtifacts {
        var i :| 0 <= i < |es| && IsArtifact(es[i]) && ArtifactId(es[i]) == id;
        if i < n { assert es[..n][i] == es[i]; }
      }
      forall id | id in t.linkedArtifacts ensures exists i :: 0 <= i < |es| && IsArtifact(es[i]) && ArtifactId(es[i]) == id {
        if id in Foldl(StepTrace, TraceSummary(None, 0, None, []), es[..n]).linkedArtifacts {
          var i :| 0 <= i < n && IsArtifact(es[..n][i]) && ArtifactId(es[..n][i]) == id;
          assert es[..n][i] == es[i];
        } else {
          assert IsArtifact(es[n]) && ArtifactId(es[n]) == id;
        }
      }
    }
  }

  /** An id a trace names: an empty one is none. */
  function NonEmpty(id: Option<string>): Option<string> { if id == Some("") then None else id }

  lemma {:induction false} IdsNamed(e: Event)
    ensures e.TraceId() == (match e.trace case Some(t) => NonEmpty(t.traceId) case None => None)
    ensures e.SpanId() == (match e.trace case Some(t) => NonEmpty(t.spanId) case None => None)
  {}

  function Picked<T>(p: Event -> bool, f: Event -> T, es: seq<Event>): seq<T>
    decreases |es|
  {
    if es == [] then [] else Picked(p, f, es[..|es| - 1]) + if p(es[|es| - 1]) then [f(es[|es| - 1])] else []
  }

  /** The progress list is the last 100 reports. */
  lemma {:induction false} ProgressWindow(es: seq<Event>)
    ensures Foldl(StepProgress, [], es) == Last(Picked(IsProgress, ProgressOf, es), PROGRESS_WINDOW)
    decreases |es|
  {
    if es != [] {
      var n := |es| - 1;
      ProgressWindow(es[..n]);
      if IsProgress(es[n]) {
        LastAppend(Picked(IsProgress, ProgressOf, es[..n]), [ProgressOf(es[n])], PROGRESS_WINDOW);
      } else {
        assert Picked(IsProgress, ProgressOf, es[..n]) + [] == Picked(IsProgress, ProgressOf, es[..n]);
      }
    }
  }

  /** Every edge joins two named ends. */
  ghost predicate Named(es: seq<Edge>) { forall i :: 0 <= i < |es| ==> es[i].from != "" && es[i].to != "" }

  lemma {:induction false} UpsertNamed(es: seq<Edge>, from: string, to: string, kind: string, ts: Time)
    requires Named(es)
    ensures Named(UpsertEdge(es, from, to, kind, ts))
  {}

  lemma {:induction false} FanNamed(es: seq<Edge>, from: string, tos: seq<string>, kind: string, ts: Time)
    requires Named(es)
    ensures Named(UpsertFan(es, from, tos, kind, ts))
    decreases |tos|
  {
    if tos != [] {
      UpsertNamed(es, from, tos[0], kind, ts);
      FanNamed(UpsertEdge(es, from, tos[0], kind, ts), from, tos[1..], kind, ts);
    }
  }

  lemma {:induction false} PushNamed(es: seq<Edge>, from: string, tos: seq<string>, kind: string, ts: Time)
    requires Named(es)
    ensures Named(PushFan(es, from, tos, kind, ts))
  {
    var ends := Filter(to => to != "", tos);
    FilterMembers(to => to != "", tos);
    assert forall i :: 0 <= i < |ends| ==> ends[i] in ends;
    MapIndex(to => Edge(from, to, kind, ts), ends);
  }

  /** The graph's edges keep both ends named, and there are never more than 300 of them. */
  lemma {:induction false} EdgesWellFormed(es: seq<Edge>, declared: seq<string>, e: Event)
    requires Named(es) && |es| <= 300
    ensures Named(StepEdges(es, declared, e)) && |StepEdges(es, declared, e)| <= 300
  {
    if e.kind.MessageSent? {
      PushNamed(es, Sender(e), e.data.to, "message.sent", e.ts);
    } else if e.kind.MessageReceived? {
      var sender, to := Sender(e), Recipients(e, declared);
      LifecycleNamed(es, MessageTypeOf(e), sender, to, e.ts);
      FanNamed(LifecycleEdges(es, MessageTypeOf(e), sender, to, e.ts), sender, to, MessageText(e, "message.received"), e.ts);
    }
  }

  lemma {:induction false} LifecycleNamed(es: seq<Edge>, m: MessageType, sender: string, to: seq<string>, ts: Time)
    requires Named(es)
    ensures Named(LifecycleEdges(es, m, sender, to, ts))
  {
    if m.SessionStart? {
      UpsertNamed(es, "__start", sender, "session.bound", ts);
      FanNamed(UpsertEdge(es, "__start", sender, "session.bound", ts), sender, to, "fanout", ts);
    } else if m.Proposal? {
      UpsertNamed(es, sender, "__proposal", "proposes", ts);
      FanNamed(UpsertEdge(es, sender, "__proposal", "proposes", ts), "__proposal", to, "review", ts);
    } else if IsBallot(m) {
      UpsertNamed(es, sender, "__decision", Lower(m.Text()), ts);
    } else if m.Commitment? {
      UpsertNamed(es, "__decision", "__outcome", "commits", ts);
    }
  }

  lemma {:induction false} EdgesAlways(base: string, s: State, es: seq<Event>)
    requires Named(s.cols.edges) && |s.cols.edges| <= 300
    ensures var c := Fold(base, s, es).cols; Named(c.edges) && |c.edges| <= 300
    decreases |es|
  {
    if es != [] {
      var mid := Fold(base, s, es[..|es| - 1]).cols;
      EdgesAlways(base, s, es[..|es| - 1]);
      EdgesWellFormed(mid.edges, Declared(mid.actors, mid.run.status, es[|es| - 1]), es[|es| - 1]);
    }
  }

  /** All of it, for the projection of a run. */
  lemma {:induction false} SummariesOfTheLog(runId: string, es: seq<Event>)
    requires runId != ""
    ensures var c := Apply(Empty(runId), es).cols;
      && RunReads(runId, es, c.run)
      && c.trace.spanCount == Count(HasSpan, es) && Distinct(c.trace.linkedArtifacts)
      && c.progress == Last(Picked(IsProgress, ProgressOf, es), PROGRESS_WINDOW)
      && Named(c.edges) && |c.edges| <= 300
  {
    TraceColumn(runId, Empty(runId), es);
    TraceSummarizes(es);
    ProgressColumn(runId, Empty(runId), es);
    ProgressWindow(es);
    RunColumn(runId, Empty(runId), es);
    RunOfTheLog(runId, es);
    EdgesAlways(runId, Empty(runId), es);
  }
}
