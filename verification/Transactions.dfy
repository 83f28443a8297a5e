/**
 * `RunEventService`: the three transactions as the source writes them, statement by statement, any
 * of which may throw.  Nothing a transaction did is visible until its commit.
 */
module Transactions {
  import opened Prelude
  import opened Events
  import opened Tables
  import opened Cache

  /**
   * Issued one by one on a transaction's own view, with the later ones computed from rows read on
   * the way, the statements of each transaction have its atomic effect.
   */
  lemma {:induction false} EmitSteps<C>(runId: string, red: Reducer<C>, db: Tables<C>, drafts: seq<Event>,
      t1: Tables<C>, t2: Tables<C>, t3: Tables<C>)
    requires t1 == Execute(db, Allocate(|drafts|))
    requires var es := Prepare(runId, drafts, t1.lastEventSeq - |drafts| + 1);
      && t2 == Execute(t1, InsertCanonical(Map(RowOf, es)))
      && t3 == Execute(t2, ApplyStatement(red, t2.projection, es))
    ensures t3 == Atomic(runId, red, db, Emit(drafts))
  {
  }

  lemma {:induction false} PersistSteps<C>(runId: string, red: Reducer<C>, db: Tables<C>, job: Job, t1: Tables<C>,
      t2: Tables<C>, t3: Tables<C>, t4: Tables<C>, t5: Tables<C>)
    requires job.Persist? && t1 == Execute(db, Allocate(1 + |job.drafts|))
    requires var start := t1.lastEventSeq - |job.drafts|;
      var es := Prepare(runId, job.drafts, start + 1);
      && t2 == Execute(t1, InsertRaw(RawRow(start, job.source, job.raw)))
      && t3 == Execute(t2, InsertCanonical(Map(RowOf, es)))
      && t4 == Execute(t3, ApplyStatement(red, t3.projection, es))
      && t5 == if job.ordinal.Some? then Execute(t4, MoveCursor(start + |job.drafts|, job.ordinal.value)) else t4
    ensures t5 == Atomic(runId, red, db, job)
  {
  }

  lemma {:induction false} RebuildSteps<C>(runId: string, red: Reducer<C>, db: Tables<C>, t1: Tables<C>, t2: Tables<C>)
    requires t1 == Execute(db, Lock) && t2 == Execute(t1, RebuildStatement(red, AllRows(t1)))
    ensures t2 == Atomic(runId, red, db, Rebuild)
  {
  }

  /** The log grew by exactly these events, and everything stored agrees with the new log. */
  ghost predicate Grown<C>(red: Reducer<C>, w: World<C>, w': World<C>, es: seq<Event>) {
    WorldOk(red, w') && w' == World(w'.t, w.log + es, w.rebuilt)
  }

  lemma {:induction false} NothingCommitted<C>(red: Reducer<C>, w: World<C>)
    requires WorldOk(red, w)
    ensures Grown(red, w, w, [])
  {
    assert w.log + [] == w.log;
  }

  lemma {:induction false} BatchCommitted<C>(runId: string, red: Reducer<C>, w: World<C>, job: Job)
    requires Lawful(red) && WorldOk(red, w) && !job.Rebuild?
    ensures var es := EventsOf(runId, job, w.t);
      Grown(red, w, World(Atomic(runId, red, w.t, job), w.log + es, w.rebuilt), es)
  {
    CommitKeeps(runId, red, w, job);
  }

  function LastSeqOf(prepared: seq<Event>, start: nat): nat {
    if |prepared| > 0 then prepared[|prepared| - 1].seqNo else start
  }

  lemma {:induction false} PreparedLast(runId: string, drafts: seq<Event>, start: nat)
    ensures LastSeqOf(Prepare(runId, drafts, start + 1), start) == start + |drafts|
  {}

  /**
   * The session row after an ingest: a missing row stays missing, and without an ordinal it is left
   * alone.  With one, each of its two markers moves to the new value unless that would be backwards.
   */
  ghost predicate Moved(s: Option<SessionRow>, s': Option<SessionRow>, cursor: nat, ordinal: Option<nat>) {
    if s.None? || ordinal.None? then s' == s
    else
      && s'.Some?
      && s'.value.lastEnvelopeOrdinal
         == (if ordinal.value > s.value.lastEnvelopeOrdinal then ordinal.value else s.value.lastEnvelopeOrdinal)
      && s'.value.lastStreamCursor
         == (if s.value.lastStreamCursor.Some? && s.value.lastStreamCursor.value >= cursor then s.value.lastStreamCursor
             else Some(cursor))
  }

  lemma {:induction false} IngestCommitted<C>(runId: string, red: Reducer<C>, t: Tables<C>, job: Job)
    requires SeqsConserved(t) && job.Persist?
    ensures Ingested(t, Atomic(runId, red, t, job), job.raw, job.source, |job.drafts|, job.ordinal)
  {
    PersistConserves(runId, red, t, job);
  }

  /** The row stored under seq n carries everything the draft says. */
  ghost predicate Carries(r: Row, runId: string, n: nat, draft: Event) {
    && r.runId == runId && r.seqNo == n
    && r.id == draft.id && r.ts == draft.ts && r.kind == draft.kind && r.data == draft.data
    && Source(r.sourceKind, r.sourceName, r.rawType) == draft.source
    && (match draft.subject
        case Some(s) => r.subjectKind == Some(s.kind) && r.subjectId == Some(s.id)
        case None => r.subjectKind.None? && r.subjectId.None?)
    && (match draft.trace
        case Some(trace) => Trace(r.traceId, r.spanId, r.parentSpanId) == trace
        case None => r.traceId.None? && r.spanId.None? && r.parentSpanId.None?)
    && (match draft.schemaVersion case Some(v) => r.schemaVersion == v case None => r.schemaVersion == 3)
  }

  /** The committed events are the drafts, given the run's id and consecutive seqs from `start` on. */
  ghost predicate Numbered(runId: string, drafts: seq<Event>, start: nat, es: seq<Event>) {
    |es| == |drafts| && forall i :: 0 <= i < |drafts| ==> es[i] == drafts[i].(runId := runId, seqNo := start + i)
  }

  ghost predicate CarriedAt(c: map<nat, Row>, runId: string, n: nat, draft: Event) { n in c && Carries(c[n], runId, n, draft) }

  /** Each draft is stored under its seq with all it says; the rows stored before are as they were, and there are no others. */
  ghost predicate Landed(runId: string, drafts: seq<Event>, start: nat, c: map<nat, Row>, c': map<nat, Row>) {
    && (forall i :: 0 <= i < |drafts| ==> CarriedAt(c', runId, start + i, drafts[i]))
    && (forall k :: k in c ==> k in c' && c'[k] == c[k])
    && (forall k :: k in c' ==> k in c || start <= k < start + |drafts|)
  }

  lemma {:induction false} StampedNumbered(runId: string, drafts: seq<Event>, start: nat)
    ensures Numbered(runId, drafts, start, Prepare(runId, drafts, start))
  {}

  lemma {:induction false} RowCarries(runId: string, draft: Event, n: nat, e: Event)
    requires e == draft.(runId := runId, seqNo := n)
    ensures Carries(RowOf(e), runId, n, draft)
  {}

  lemma {:induction false} RowsLand(runId: string, drafts: seq<Event>, start: nat, c: map<nat, Row>)
    requires forall k :: k in c ==> k < start
    ensures Landed(runId, drafts, start, c, InsertRows(c, RowsOf(runId, drafts, start)))
  {
    var es, rows := Prepare(runId, drafts, start), RowsOf(runId, drafts, start);
    var d := InsertRows(c, rows);
    RowsNumbered(runId, drafts, start);
    InsertFresh(c, rows, start);
    StampedNumbered(runId, drafts, start);
    forall i | 0 <= i < |drafts| ensures CarriedAt(d, runId, start + i, drafts[i]) {
      MapIndex(RowOf, es);
      assert d[start + i] == rows[start + i - start] && rows[i] == RowOf(es[i]);
      RowCarries(runId, drafts[i], start + i, es[i]);
    }
  }

  /** A batch ready to commit: the transaction's view, and the events in it. */
  datatype Batch<C> = Batch(t: Tables<C>, events: seq<Event>)

  /** What a committed batch is, to its caller. */
  ghost predicate Delivered<C>(runId: string, drafts: seq<Event>, start: nat, t: Tables<C>, b: Batch<C>) {
    Numbered(runId, drafts, start, b.events) && Landed(runId, drafts, start, t.canonical, b.t.canonical)
  }

  lemma {:induction false} RowsDelivered<C>(runId: string, drafts: seq<Event>, start: nat, t: Tables<C>, b: Batch<C>)
    requires forall k :: k in t.canonical ==> k < start
    requires b.events == Prepare(runId, drafts, start) && b.t.canonical == InsertRows(t.canonical, RowsOf(runId, drafts, start))
    ensures Delivered(runId, drafts, start, t, b)
  {
    StampedNumbered(runId, drafts, start);
    RowsLand(runId, drafts, start, t.canonical);
  }

  lemma {:induction false} EmitDelivers<C>(runId: string, red: Reducer<C>, t: Tables<C>, drafts: seq<Event>)
    requires SeqsConserved(t)
    ensures Delivered(runId, drafts, t.lastEventSeq + 1, t,
                      Batch(Atomic(runId, red, t, Emit(drafts)), EventsOf(runId, Emit(drafts), t)))
  {
    RowsDelivered(runId, drafts, t.lastEventSeq + 1, t,
                  Batch(Atomic(runId, red, t, Emit(drafts)), EventsOf(runId, Emit(drafts), t)));
  }

  lemma {:induction false} PersistDelivers<C>(runId: string, red: Reducer<C>, t: Tables<C>, job: Job)
    requires SeqsConserved(t) && job.Persist?
    ensures Delivered(runId, job.drafts, t.lastEventSeq + 2, t, Batch(Atomic(runId, red, t, job), EventsOf(runId, job, t)))
  {
    RowsDelivered(runId, job.drafts, t.lastEventSeq + 2, t, Batch(Atomic(runId, red, t, job), EventsOf(runId, job, t)));
  }

  lemma {:induction false} NothingDelivered<C>(runId: string, start: nat, t: Tables<C>)
    ensures Delivered(runId, [], start, t, Batch(t, []))
  {}

  /** The log is untouched, and the row is its fold as rows are cast, with nothing else changed. */
  ghost predicate Rebuilt<C>(red: Reducer<C>, w: World<C>, w': World<C>) {
    && w'.log == w.log && w'.rebuilt == |w.log| && w'.t == w.t.(projection := w'.t.projection)
    && w'.t.projection == Some(ProjectionRow(LastSeq(w.log), red.apply(red.empty, Map(Strip, w.log))))
  }

  lemma {:induction false} RebuildCommitted<C>(runId: string, red: Reducer<C>, w: World<C>)
    requires Lawful(red) && WorldOk(red, w)
    ensures var w' := World(Atomic(runId, red, w.t, Rebuild), w.log, |w.log|); WorldOk(red, w') && Rebuilt(red, w, w')
  {
    CommitKeeps(runId, red, w, Rebuild);
    RebuildKeepsCache(runId, red, w);
    assert w.log + [] == w.log;
  }

  /** The body of an emitting transaction on its own view; `fails(k)` says that its k-th statement throws. */
  method RunEmit<C>(runId: string, red: Reducer<C>, db: Tables<C>, drafts: seq<Event>, fails: nat -> bool)
    returns (tx: Option<Batch<C>>)
    ensures tx == if fails(0) || fails(1) || fails(2) then None
                  else Some(Batch(Atomic(runId, red, db, Emit(drafts)), EventsOf(runId, Emit(drafts), db)))
  {
    var t1 := Execute(db, Allocate(|drafts|));
    if fails(0) { return None; }
    var prepared := Prepare(runId, drafts, t1.lastEventSeq - |drafts| + 1);
    var t2 := Execute(t1, InsertCanonical(Map(RowOf, prepared)));
    if fails(1) { return None; }
    var t3 := Execute(t2, ApplyStatement(red, t2.projection, prepared));
    if fails(2) { return None; }
    EmitSteps(runId, red, db, drafts, t1, t2, t3);
    return Some(Batch(t3, prepared));
  }

  /** The body of an ingesting transaction, whose resume ordinal is written with the events it covers. */
  method RunPersist<C>(runId: string, red: Reducer<C>, db: Tables<C>, raw: RawEvent, source: RawSource,
      drafts: seq<Event>,
                       ordinal: Option<nat>, fails: nat -> bool)
    returns (tx: Option<Batch<C>>)
    ensures tx == if fails(0) || fails(1) || fails(2) || fails(3) || (ordinal.Some? && fails(4)) then None
                  else Some(Batch(Atomic(runId, red, db, Persist(raw, source, drafts, ordinal)),
                                  EventsOf(runId, Persist(raw, source, drafts, ordinal), db)))
  {
    var total := 1 + |drafts|;
    var t1 := Execute(db, Allocate(total));
    if fails(0) { return None; }
    var start := t1.lastEventSeq - total + 1;
    var t2 := Execute(t1, InsertRaw(RawRow(start, source, raw)));
    if fails(1) { return None; }
    var prepared := Prepare(runId, drafts, start + 1);
    var t3 := Execute(t2, InsertCanonical(Map(RowOf, prepared)));
    if fails(2) { return None; }
    var t4 := Execute(t3, ApplyStatement(red, t3.projection, prepared));
    if fails(3) { return None; }
    PreparedLast(runId, drafts, start);
    var t5 := if ordinal.Some? then Execute(t4, MoveCursor(LastSeqOf(prepared, start), ordinal.value)) else t4;
    if ordinal.Some? && fails(4) { return None; }
    PersistSteps(runId, red, db, Persist(raw, source, drafts, ordinal), t1, t2, t3, t4, t5);
    return Some(Batch(t5, prepared));
  }

  /** What an ingest of n events leaves besides the log: its raw row under the next seq, and the resume markers. */
  ghost predicate Ingested<C>(t: Tables<C>, t': Tables<C>, raw: RawEvent, source: RawSource, n: nat, ordinal: Option<nat>) {
    var start := t.lastEventSeq + 1;
    && t'.raw == t.raw[start := RawRow(start, source, raw)]
    && Moved(t.session, t'.session, start + n, ordinal)
  }

  /**
   * The emitting transaction with its commit: the batch if everything went through, an empty one on
   * old rows if not.
   */
  method Emitted<C>(runId: string, red: Reducer<C>, ghost w: World<C>, db: Tables<C>, drafts: seq<Event>,
      fails: nat -> bool)
    returns (committed: bool, b: Batch<C>, ghost w': World<C>)
    requires Lawful(red) && WorldOk(red, w) && db == w.t
    ensures Grown(red, w, w', b.events) && w'.t == b.t
    ensures committed <==> drafts == [] || !(fails(0) || fails(1) || fails(2) || fails(3))
    ensures if committed then Delivered(runId, drafts, db.lastEventSeq + 1, db, b) else b.events == []
    ensures b.t.raw == db.raw && b.t.session == db.session && (!committed ==> b.t == db)
  {
    NothingCommitted(red, w);
    NothingDelivered(runId, db.lastEventSeq + 1, db);
    if drafts == [] { return true, Batch(db, []), w; }
    EmitDelivers(runId, red, db, drafts);
    BatchCommitted(runId, red, w, Emit(drafts));
    var tx := RunEmit(runId, red, db, drafts, fails);
    if tx.None? || fails(3) { return false, Batch(db, []), w; }
    return true, tx.value, World(tx.value.t, w.log + tx.value.events, w.rebuilt);
  }

  method Persisted<C>(runId: string, red: Reducer<C>, ghost w: World<C>, db: Tables<C>, raw: RawEvent,
      source: RawSource,
                      drafts: seq<Event>, ordinal: Option<nat>, fails: nat -> bool)
    returns (committed: bool, b: Batch<C>, ghost w': World<C>)
    requires Lawful(red) && WorldOk(red, w) && db == w.t
    ensures Grown(red, w, w', b.events) && w'.t == b.t
    ensures committed <==> !(fails(0) || fails(1) || fails(2) || fails(3) || (ordinal.Some? && fails(4)) || fails(5))
    ensures if committed then Delivered(runId, drafts, db.lastEventSeq + 2, db, b) else b.events == []
    ensures if committed then Ingested(db, b.t, raw, source, |drafts|, ordinal) else b.t == db
  {
    NothingCommitted(red, w);
    var tx := RunPersist(runId, red, db, raw, source, drafts, ordinal, fails);
    if tx.None? || fails(5) { return false, Batch(db, []), w; }
    BatchCommitted(runId, red, w, Persist(raw, source, drafts, ordinal));
    PersistDelivers(runId, red, db, Persist(raw, source, drafts, ordinal));
    IngestCommitted(runId, red, db, Persist(raw, source, drafts, ordinal));
    return true, tx.value, World(tx.value.t, w.log + tx.value.events, w.rebuilt);
  }

  class RunEventService<C(0)> {
    const runId: string
    const red: Reducer<C>
    var db: Tables<C>
    /** The rows with their history: every event committed so far, and how many of them the last rebuild read. */
    ghost var history: World<C>

    /** Sequence numbers are conserved, the stored rows are the log, and the cached projection is its fold. */
    ghost predicate Valid()
      reads this
    {
      WorldOk(red, history) && history.t == db
    }

    constructor (runId: string, red: Reducer<C>, session: Option<SessionRow>)
      requires Lawful(red)
      ensures Valid() && this.runId == runId && this.red == red && history == NewWorld<C>(session)
    {
      this.runId, this.red, this.db := runId, red, NewWorld<C>(session).t;
      history := NewWorld<C>(session);
      new;
      NewWorldOk(red, session);
    }

    /** `fails(k)` says that the k-th statement throws, the commit itself being the last. */
    method EmitControlPlaneEvents(drafts: seq<Event>, fails: nat -> bool) returns (committed: bool, events: seq<Event>)
      requires Lawful(red) && Valid()
      modifies this`db, this`history
      ensures history.t == db && Grown(red, old(history), history, events)
      ensures committed <==> drafts == [] || !(fails(0) || fails(1) || fails(2) || fails(3))
      ensures if committed then Numbered(runId, drafts, old(db).lastEventSeq + 1, events) else events == []
      ensures committed ==> Landed(runId, drafts, old(db).lastEventSeq + 1, old(db).canonical, db.canonical)
      ensures db.raw == old(db).raw && db.session == old(db).session && (!committed ==> db == old(db))
    {
      var b;
      ghost var after;
      committed, b, after := Emitted(runId, red, history, db, drafts, fails);
      db, history, events := b.t, after, b.events;
    }

    method PersistRawAndCanonical(raw: RawEvent, source: RawSource, drafts: seq<Event>, ordinal: Option<nat>,
        fails: nat -> bool)
      returns (committed: bool, events: seq<Event>)
      requires Lawful(red) && Valid()
      modifies this`db, this`history
      ensures history.t == db && Grown(red, old(history), history, events)
      ensures committed <==> !(fails(0) || fails(1) || fails(2) || fails(3) || (ordinal.Some? && fails(4)) || fails(5))
      ensures if committed then Numbered(runId, drafts, old(db).lastEventSeq + 2, events) else events == []
      ensures committed ==> Landed(runId, drafts, old(db).lastEventSeq + 2, old(db).canonical, db.canonical)
      ensures if committed then Ingested(old(db), db, raw, source, |drafts|, ordinal) else db == old(db)
    {
      var b;
      ghost var after;
      committed, b, after := Persisted(runId, red, history, db, raw, source, drafts, ordinal, fails);
      db, history, events := b.t, after, b.events;
    }

    /** The rebuild: the stored row becomes the fold of the whole log as rows are cast, whatever it was before. */
    method RebuildProjection(fails: nat -> bool) returns (committed: bool)
      requires Lawful(red) && Valid()
      modifies this`db, this`history
      ensures Valid() && (committed <==> !(fails(0) || fails(1) || fails(2)))
      ensures !committed ==> history == old(history)
      ensures committed ==> Rebuilt(red, old(history), history)
    {
      var t1 := Execute(db, Lock);
      if fails(0) { return false; }
      var rows := AllRows(t1);
      if fails(1) { return false; }
      var t2 := Execute(t1, RebuildStatement(red, rows));
      if fails(2) { return false; }
      RebuildSteps(runId, red, db, t1, t2);
      RebuildCommitted(runId, red, history);
      db, history := t2, World(t2, history.log, |history.log|);
      return true;
    }
  }
}
