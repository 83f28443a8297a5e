/** The cache results for the real reducer: live rows, rebuilt rows, replayed rows. */
module StoredProjection {
  import opened Prelude
  import opened Events
  import opened Projection
  import opened Batching
  import Windows
  import opened Tables
  import opened Interleaving
  import opened Cache
  import opened Rebuild

  function RunReducer(runId: string): Reducer<Columns> {
    Reducer(Empty(runId).cols, (c: Columns, es: seq<Event>) => Apply(Reloaded(c), es).cols, (c: Columns) => c.timeline.latestSeq)
  }

  lemma {:induction false} ReducerFolds(runId: string, es: seq<Event>)
    ensures RunReducer(runId).apply(RunReducer(runId).empty, es) == FoldColumns(runId, es)
  {}

  lemma {:induction false} ReducerComposes(runId: string, a: seq<Event>, b: seq<Event>)
    requires runId != ""
    ensures RunReducer(runId).apply(FoldColumns(runId, a), b) == FoldColumns(runId, a + b)
  {
    UnstoredTotalsRestartEachBatch(runId, a, b);
  }

  lemma {:induction false} ReducerLatestSeq(runId: string, a: seq<Event>)
    ensures FoldColumns(runId, a).timeline.latestSeq == LastSeq(a)
    ensures FoldColumns(runId, a).timeline.totalEvents == |a|
  {
    Windows.TimelineColumn(runId, Empty(runId), a);
    Windows.TimelineWindow(a);
  }

  lemma {:induction false} ReducerLawful(runId: string)
    requires runId != ""
    ensures Lawful(RunReducer(runId))
  {
    var red := RunReducer(runId);
    forall a: seq<Event>, b: seq<Event> ensures Composes(red, a, b) {
      ReducerFolds(runId, a);
      ReducerFolds(runId, a + b);
      ReducerComposes(runId, a, b);
    }
    forall a: seq<Event> ensures KeepsLastSeq(red, a) {
      ReducerFolds(runId, a);
      ReducerLatestSeq(runId, a);
    }
  }

  function Start(session: Option<SessionRow>): World<Columns> { NewWorld(session) }

  /** The stored row is the fold of these events, and its markers are theirs. */
  ghost predicate RowIsFold(runId: string, row: ProjectionRow<Columns>, es: seq<Event>) {
    && row.cols == FoldColumns(runId, es)
    && row.version == row.cols.timeline.latestSeq == LastSeq(es)
    && row.cols.timeline.totalEvents == |es|
  }

  lemma {:induction false} StoredRow(runId: string, w: World<Columns>)
    requires CacheAgrees(RunReducer(runId), w) && w.t.projection.Some?
    ensures RowIsFold(runId, w.t.projection.value, Folded(w))
  {
    ReducerFolds(runId, Folded(w));
    ReducerLatestSeq(runId, Folded(w));
    FoldedLastSeq(w);
  }

  lemma {:induction false} NothingRebuilt<C>(w: World<C>)
    requires w.rebuilt == 0
    ensures Folded(w) == w.log
  {
    assert Map(Strip, w.log[..0]) == [] && w.log[0..] == w.log;
  }

  lemma {:induction false} CoreOfFolded(runId: string, w: World<Columns>)
    requires w.rebuilt <= |w.log| && forall k :: 0 <= k < w.rebuilt ==> SubjectUnread(w.log[k])
    ensures CoreAgrees(FoldColumns(runId, Folded(w)), FoldColumns(runId, w.log))
  {
    var read, live := w.log[..w.rebuilt], w.log[w.rebuilt..];
    assert read + live == w.log && forall k :: 0 <= k < |read| ==> read[k] == w.log[k];
    RebuildAgreesOnCore(runId, read, live);
  }

  ghost predicate StoredMatchesLog(runId: string, w: World<Columns>) {
    && LogStored(w) && w.rebuilt <= |w.log|
    && match w.t.projection
       case None => w.log == []
       case Some(row) =>
         && RowIsFold(runId, row, Folded(w)) && (w.rebuilt == 0 ==> RowIsFold(runId, row, w.log))
         && ((forall k :: 0 <= k < w.rebuilt ==> SubjectUnread(w.log[k])) ==> CoreAgrees(row.cols, FoldColumns(runId, w.log)))
  }

  lemma {:induction false} MatchesFromOk(runId: string, w: World<Columns>)
    requires WorldOk(RunReducer(runId), w)
    ensures StoredMatchesLog(runId, w)
  {
    if w.t.projection.Some? {
      StoredRow(runId, w);
      if w.rebuilt == 0 {
        NothingRebuilt(w);
      }
      if forall k :: 0 <= k < w.rebuilt ==> SubjectUnread(w.log[k]) {
        CoreOfFolded(runId, w);
      }
    }
  }

  /**
   * At every point of every interleaving of event transactions and rebuilds: the stored nine
   * columns are the plain fold of the committed log (of the log as the last rebuild read it, if
   * one committed), and version, latestSeq and totalEvents match the log.  After a rebuild the core
   * columns still are the plain fold, as long as what it read takes no fallback to the subject.
   */
  lemma {:induction false} StoredProjectionAgrees(runId: string, session: Option<SessionRow>, tr: seq<System<Columns>>,
      i: nat)
    requires runId != "" && Run(true, runId, RunReducer(runId), Start(session).t, tr) && i < |tr|
    ensures var w := History(runId, RunReducer(runId), Start(session), tr[i].committed);
            && w.t == tr[i].db && StoredMatchesLog(runId, w)
            && ((forall j :: j in tr[i].committed ==> !j.Rebuild?) ==> w.rebuilt == 0)
  {
    var red := RunReducer(runId);
    ReducerLawful(runId);
    CacheAgreesUnderInterleaving(runId, red, session, tr, i);
    NewWorldOk(red, session);
    HistoryOk(runId, red, Start(session), tr[i].committed);
    MatchesFromOk(runId, History(runId, red, Start(session), tr[i].committed));
  }
}
