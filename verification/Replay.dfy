/** Replay: reading stored rows back, and the state at a sequence number. */
module Replay {
  import opened Prelude
  import opened Events
  import opened Projection
  import opened Batching
  import opened Tables
  import opened Cache
  import opened Rebuild
  import opened StoredProjection
  import Paging

  // ---- Reading a row back ---------------------------------------------------------------------

  /** A row that is read back through `rowToCanonical`. */
  function ReadBack(e: Event): Event { RowToCanonical(RowOf(e)) }

  predicate NamesItsSubject(e: Event) { e.subject.None? || e.subject.value.id != "" }

  lemma {:induction false} ReadBackCore(e: Event)
    ensures SameCore(ReadBack(e), e) && ReadBack(e).TraceId() == e.TraceId() && ReadBack(e).SpanId() == e.SpanId()
    ensures NamesItsSubject(e) <==> ReadBack(e).subject == e.subject
  {}

  /**
   * What reading a stored event back gives: everything it was stored with, except that a subject with
   * an empty id is gone, the schema version is not read, an absent trace reads as an empty one, and the
   * source kind of before the renaming reads as the current one.
   */
  lemma {:induction false} ReadBackIs(e: Event)
    ensures var r := ReadBack(e);
      && r.id == e.id && r.runId == e.runId && r.seqNo == e.seqNo && r.ts == e.ts && r.kind == e.kind && r.data == e.data
      && r.subject == (if e.subject.Some? && e.subject.value.id != "" then e.subject else None)
      && r.trace == Some(e.trace.Or(Trace(None, None, None))) && r.schemaVersion.None?
      && r.source.name == e.source.name && r.source.rawType == e.source.rawType
      && r.source.kind == if e.source.kind == "control-plane" then "macp-control-plane" else e.source.kind
  {}

  /**
   * Storing an event and reading it back is invisible to the reducer exactly when the event does
   * not carry a subject with an empty id (which reads back as no subject).
   */
  lemma {:induction false} ReadBackInvisibleIff(base: string, c: Columns, e: Event)
    ensures StepColumns(base, c, ReadBack(e)) == StepColumns(base, c, e) <==> NamesItsSubject(e)
  {
    ReadBackCore(e);
    if NamesItsSubject(e) {
      SameStep(base, c, ReadBack(e), e);
    } else {
      LastEntry(c.timeline, e);
      LastEntry(c.timeline, ReadBack(e));
    }
  }

  lemma {:induction false} ReadBackFold(base: string, c: Columns, es: seq<Event>)
    requires forall i :: 0 <= i < |es| ==> NamesItsSubject(es[i])
    ensures Foldl(ColumnStepper(base), c, Map(ReadBack, es)) == Foldl(ColumnStepper(base), c, es)
    decreases |es|
  {
    if es != [] {
      var n := |es| - 1;
      ReadBackFold(base, c, es[..n]);
      MapIndex(ReadBack, es);
      assert Map(ReadBack, es)[..n] == Map(ReadBack, es[..n]);
      ReadBackInvisibleIff(base, Foldl(ColumnStepper(base), c, es[..n]), es[n]);
    }
  }

  // ---- State at a sequence number -------------------------------------------------------------

  /** `ReplayService.stateAt`. */
  function StateAt(runId: string, t: Tables<Columns>, n: nat): State {
    Apply(Empty(runId), Map(RowToCanonical, RowsUpTo(t.canonical, n)))
  }

  lemma {:induction false} ReadBackColumns(runId: string, es: seq<Event>)
    requires forall i :: 0 <= i < |es| ==> NamesItsSubject(es[i])
    ensures Apply(Empty(runId), Map(RowToCanonical, Map(RowOf, es))).cols == FoldColumns(runId, es)
  {
    MapIndex(RowOf, es);
    MapIndex(RowToCanonical, Map(RowOf, es));
    MapIndex(ReadBack, es);
    assert Map(RowToCanonical, Map(RowOf, es)) == Map(ReadBack, es);
    ColumnsFold(runId, Empty(runId), Map(ReadBack, es));
    ColumnsFold(runId, Empty(runId), es);
    ReadBackFold(runId, Empty(runId).cols, es);
  }

  /** Later transactions never touch rows that are already there. */
  lemma {:induction false} RowsSettled<C>(runId: string, red: Reducer<C>, w: World<C>, jobs: seq<Job>)
    requires Lawful(red) && WorldOk(red, w)
    ensures var v := History(runId, red, w, jobs);
            && w.t.lastEventSeq <= v.t.lastEventSeq
            && RowsUpTo(v.t.canonical, w.t.lastEventSeq) == AllRows(w.t)
    decreases |jobs|
  {
    if jobs != [] {
      var n := |jobs| - 1;
      RowsSettled(runId, red, w, jobs[..n]);
      HistoryOk(runId, red, w, jobs[..n]);
      var v := History(runId, red, w, jobs[..n]);
      RowsKept(runId, red, v.t, jobs[n]);
      RowsAgree(v.t.canonical, Atomic(runId, red, v.t, jobs[n]).canonical, w.t.lastEventSeq);
    }
  }

  lemma {:induction false} RowsKept<C>(runId: string, red: Reducer<C>, t: Tables<C>, job: Job)
    requires SeqsConserved(t)
    ensures var r := Atomic(runId, red, t, job);
            && t.lastEventSeq <= r.lastEventSeq
            && forall k :: 1 <= k <= t.lastEventSeq ==>
                 (k in t.canonical <==> k in r.canonical) && (k in t.canonical ==> t.canonical[k] == r.canonical[k])
  {
    if !job.Rebuild? {
      var start := StartOf(job, t);
      BatchRows(runId, job.drafts, start);
      InsertFresh(t.canonical, Map(RowOf, Prepare(runId, job.drafts, start)), start);
    }
  }

  /**
   * Replay agrees with live, for every history with rebuilds anywhere before and after: replaying up
   * to the sequence number a batch ended at gives, on all nine columns, the row stored when that
   * batch committed if no rebuild had read any event by then, and otherwise on the core columns
   * unless an event that was rebuilt falls back to its subject.
   */
  lemma {:induction false} StateAtIsWhatWasStored(runId: string, session: Option<SessionRow>, jobs: seq<Job>,
      later: seq<Job>)
    requires runId != ""
    requires var w := History(runId, RunReducer(runId), Start(session), jobs);
      w.t.projection.Some? && forall i :: 0 <= i < |w.log| ==> NamesItsSubject(w.log[i])
    ensures var w := History(runId, RunReducer(runId), Start(session), jobs);
            var v := History(runId, RunReducer(runId), w, later);
            var stored, replayed := w.t.projection.value.cols, StateAt(runId, v.t, w.t.lastEventSeq).cols;
            && w.rebuilt <= |w.log| && ((forall j :: j in jobs ==> !j.Rebuild?) ==> w.rebuilt == 0)
            && (w.rebuilt == 0 ==> replayed == stored)
            && ((forall i :: 0 <= i < w.rebuilt ==> SubjectUnread(w.log[i])) ==> CoreAgrees(stored, replayed))
  {
    var red := RunReducer(runId);
    ReducerLawful(runId);
    NewWorldOk(red, session);
    HistoryOk(runId, red, Start(session), jobs);
    var w := History(runId, red, Start(session), jobs);
    MatchesFromOk(runId, w);
    RowsSettled(runId, red, w, later);
    ReadBackColumns(runId, w.log);
  }

  function RowSeq(r: Row): nat { r.seqNo }

  /**
   * At every point of every history the stored canonical rows are in strict seq order: what the paged
   * readers rely on.
   */
  lemma {:induction false} LogIsSorted<C>(runId: string, red: Reducer<C>, session: Option<SessionRow>, jobs: seq<Job>)
    requires Lawful(red)
    ensures Paging.Sorted(RowSeq, AllRows(History(runId, red, NewWorld<C>(session), jobs).t))
  {
    NewWorldOk(red, session);
    HistoryOk(runId, red, NewWorld<C>(session), jobs);
    MapIndex(RowOf, History(runId, red, NewWorld<C>(session), jobs).log);
  }
}
