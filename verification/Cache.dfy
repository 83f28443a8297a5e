/**
 * The event log, its sequence numbers and the cached projection over every history of committed
 * transactions, for any reducer whose batches compose.
 */
module Cache {
  import opened Prelude
  import opened Events
  import opened Tables
  import opened Interleaving

  /** `log` and `rebuilt` are history: the events committed so far, and how many the last rebuild read. */
  datatype World<C> = World(t: Tables<C>, log: seq<Event>, rebuilt: nat)

  function NewWorld<C>(session: Option<SessionRow>): World<C> { World(Tables(0, map[], map[], None, session), [], 0) }

  function Committed<C>(runId: string, red: Reducer<C>, w: World<C>, job: Job): World<C> {
    World(Atomic(runId, red, w.t, job), w.log + EventsOf(runId, job, w.t), if job.Rebuild? then |w.log| else w.rebuilt)
  }

  function History<C>(runId: string, red: Reducer<C>, w: World<C>, jobs: seq<Job>): World<C> {
    Foldl((w, j) => Committed(runId, red, w, j), w, jobs)
  }

  function LastSeq(es: seq<Event>): nat { if es == [] then 0 else es[|es| - 1].seqNo }

  /** Folding two batches is folding their concatenation. */
  ghost predicate Composes<C>(red: Reducer<C>, a: seq<Event>, b: seq<Event>) {
    red.apply(red.apply(red.empty, a), b) == red.apply(red.empty, a + b)
  }

  /** The last seq can be read off the state. */
  ghost predicate KeepsLastSeq<C>(red: Reducer<C>, a: seq<Event>) {
    red.latestSeq(red.apply(red.empty, a)) == LastSeq(a)
  }

  /** Folding the empty batch does nothing, batches compose, and the last seq is kept. */
  ghost predicate Lawful<C>(red: Reducer<C>) {
    && red.apply(red.empty, []) == red.empty
    && (forall a: seq<Event>, b: seq<Event> :: Composes(red, a, b))
    && (forall a: seq<Event> :: KeepsLastSeq(red, a))
  }

  /** A stored event as a rebuild reads it: without subject and trace. */
  function Strip(e: Event): Event { CastRow(RowOf(e)) }

  /** The events the cache has folded: stripped up to the last rebuild, as committed from there on. */
  function Folded<C>(w: World<C>): seq<Event>
    requires w.rebuilt <= |w.log|
  {
    Map(Strip, w.log[..w.rebuilt]) + w.log[w.rebuilt..]
  }

  // ---- Sequence conservation ------------------------------------------------------------------

  /** The two tables are disjoint and together hold exactly the sequence numbers 1..n. */
  ghost predicate Dense(raw: map<nat, RawRow>, c: map<nat, Row>, n: nat) {
    && (forall k :: k in raw ==> k !in c && raw[k].seqNo == k)
    && (forall k :: k in raw || k in c <==> 1 <= k <= n)
  }

  ghost predicate SeqsConserved<C>(t: Tables<C>) { Dense(t.raw, t.canonical, t.lastEventSeq) }

  ghost predicate Increasing(es: seq<Event>) {
    forall i, j :: 0 <= i < j < |es| ==> es[i].seqNo < es[j].seqNo
  }

  ghost predicate LogStored<C>(w: World<C>) {
    && SeqsConserved(w.t)
    && Increasing(w.log)
    && (forall i :: 0 <= i < |w.log| ==> 1 <= w.log[i].seqNo <= w.t.lastEventSeq)
    && AllRows(w.t) == Map(RowOf, w.log)
  }

  /** Fresh consecutive sequence numbers never collide with stored ones, so every row lands. */
  lemma {:induction false} InsertFresh(c: map<nat, Row>, rows: seq<Row>, start: nat)
    requires forall k :: k in c ==> k < start
    requires forall i :: 0 <= i < |rows| ==> rows[i].seqNo == start + i
    ensures forall k :: k in InsertRows(c, rows) <==> k in c || start <= k < start + |rows|
    ensures forall k :: k in c ==> InsertRows(c, rows)[k] == c[k]
    ensures forall k :: start <= k < start + |rows| ==> InsertRows(c, rows)[k] == rows[k - start]
    decreases |rows|
  {
    if rows != [] {
      var k := |rows| - 1;
      InsertFresh(c, rows[..k], start);
      assert rows[k].seqNo !in InsertRows(c, rows[..k]);
    }
  }

  /** … and lands last in seq order. */
  lemma {:induction false} InsertedLast(c: map<nat, Row>, d: map<nat, Row>, rows: seq<Row>, n: nat, start: nat)
    requires start > n && forall k :: k in c ==> k <= n
    requires forall k :: k in d <==> k in c || start <= k < start + |rows|
    requires forall k :: k in c ==> d[k] == c[k]
    requires forall k :: start <= k < start + |rows| ==> d[k] == rows[k - start]
    ensures RowsUpTo(d, start + |rows| - 1) == RowsUpTo(c, n) + rows
    decreases |rows|
  {
    RowsAgree(c, d, start - 1);
    RowsGap(c, n, start - 1);
    ListRange(d, rows, start);
  }

  lemma {:induction false} ListRange(d: map<nat, Row>, rows: seq<Row>, start: nat)
    requires start > 0 && forall k :: start <= k < start + |rows| ==> k in d && d[k] == rows[k - start]
    ensures RowsUpTo(d, start + |rows| - 1) == RowsUpTo(d, start - 1) + rows
    decreases |rows|
  {
    if rows == [] {
      assert RowsUpTo(d, start - 1) + [] == RowsUpTo(d, start - 1);
    } else {
      var k := |rows| - 1;
      ListRange(d, rows[..k], start);
      var before := RowsUpTo(d, start - 1);
      assert RowsUpTo(d, start + k) == RowsUpTo(d, start + k - 1) + [rows[k]];
      assert before + rows[..k] + [rows[k]] == before + (rows[..k] + [rows[k]]);
      assert rows == rows[..k] + [rows[k]];
    }
  }

  lemma {:induction false} RowsGap(c: map<nat, Row>, n: nat, m: nat)
    requires n <= m && forall k :: k in c ==> k <= n
    ensures RowsUpTo(c, m) == RowsUpTo(c, n)
    decreases m
  {
    if n < m {
      RowsGap(c, n, m - 1);
    }
  }

  lemma {:induction false} RowsAgree(c: map<nat, Row>, d: map<nat, Row>, n: nat)
    requires forall k :: 1 <= k <= n ==> (k in c <==> k in d) && (k in c ==> c[k] == d[k])
    ensures RowsUpTo(c, n) == RowsUpTo(d, n)
  {
    if n > 0 {
      RowsAgree(c, d, n - 1);
    }
  }

  /** The rows of a stamped batch, whichever of the two event transactions stamped it. */
  lemma {:induction false} BatchRows(runId: string, drafts: seq<Event>, start: nat)
    ensures var es := Prepare(runId, drafts, start);
            && |es| == |drafts|
            && Increasing(es)
            && (forall i :: 0 <= i < |es| ==> es[i].seqNo == start + i)
            && (forall i :: 0 <= i < |es| ==> Map(RowOf, es)[i].seqNo == start + i)
  {
    var es := Prepare(runId, drafts, start);
    assert forall i :: 0 <= i < |es| ==> es[i] == Stamp(drafts[i], runId, start + i);
    MapIndex(RowOf, es);
  }

  lemma {:induction false} MapAppend<A, B>(f: A -> B, a: seq<A>, b: seq<A>)
    ensures Map(f, a + b) == Map(f, a) + Map(f, b)
  {
    MapIndex(f, a + b);
    MapIndex(f, a);
    MapIndex(f, b);
  }

  /** First sequence number a job's canonical events get. */
  function StartOf<C>(job: Job, t: Tables<C>): nat { if job.Persist? then t.lastEventSeq + 2 else t.lastEventSeq + 1 }

  /** Numbering a batch right after the last used number keeps the numbering dense and the tables disjoint. */
  lemma {:induction false} DenseAppend(raw: map<nat, RawRow>, raw': map<nat, RawRow>, c: map<nat, Row>, rows: seq<Row>,
      n: nat, start: nat)
    requires Dense(raw, c, n)
    requires (start == n + 1 && raw' == raw)
      || (start == n + 2 && exists row: RawRow :: row.seqNo == n + 1 && raw' == raw[n + 1 := row])
    requires forall i :: 0 <= i < |rows| ==> rows[i].seqNo == start + i
    ensures Dense(raw', InsertRows(c, rows), start + |rows| - 1)
    ensures RowsUpTo(InsertRows(c, rows), start + |rows| - 1) == RowsUpTo(c, n) + rows
  {
    InsertFresh(c, rows, start);
    InsertedLast(c, InsertRows(c, rows), rows, n, start);
  }

  lemma {:induction false} NextIsFresh<C>(t: Tables<C>)
    requires SeqsConserved(t)
    ensures t.lastEventSeq + 1 !in t.raw
  {}

  /** The rows of a stamped batch. */
  function RowsOf(runId: string, drafts: seq<Event>, start: nat): seq<Row> { Map(RowOf, Prepare(runId, drafts, start)) }

  lemma {:induction false} RowsNumbered(runId: string, drafts: seq<Event>, start: nat)
    ensures |RowsOf(runId, drafts, start)| == |drafts|
    ensures forall i :: 0 <= i < |drafts| ==> RowsOf(runId, drafts, start)[i].seqNo == start + i
  {
    BatchRows(runId, drafts, start);
  }

  lemma {:induction false} DenseBatch(runId: string, raw: map<nat, RawRow>, c: map<nat, Row>, drafts: seq<Event>,
      n: nat)
    requires Dense(raw, c, n)
    ensures var d := InsertRows(c, RowsOf(runId, drafts, n + 1));
      Dense(raw, d, n + |drafts|) && RowsUpTo(d, n + |drafts|) == RowsUpTo(c, n) + RowsOf(runId, drafts, n + 1)
  {
    RowsNumbered(runId, drafts, n + 1);
    DenseAppend(raw, raw, c, RowsOf(runId, drafts, n + 1), n, n + 1);
  }

  lemma {:induction false} DenseIngest(runId: string, raw: map<nat, RawRow>, c: map<nat, Row>, row: RawRow,
      drafts: seq<Event>, n: nat)
    requires Dense(raw, c, n) && row.seqNo == n + 1
    ensures var d := InsertRows(c, RowsOf(runId, drafts, n + 2));
      && Dense(raw[n + 1 := row], d, n + 1 + |drafts|)
      && RowsUpTo(d, n + 1 + |drafts|) == RowsUpTo(c, n) + RowsOf(runId, drafts, n + 2)
  {
    RowsNumbered(runId, drafts, n + 2);
    DenseAppend(raw, raw[n + 1 := row], c, RowsOf(runId, drafts, n + 2), n, n + 2);
  }

  lemma {:induction false} EmitConserves<C>(runId: string, red: Reducer<C>, t: Tables<C>, drafts: seq<Event>)
    requires SeqsConserved(t)
    ensures var r := Atomic(runId, red, t, Emit(drafts));
            SeqsConserved(r) && AllRows(r) == AllRows(t) + Map(RowOf, Prepare(runId, drafts, t.lastEventSeq + 1))
  {
    DenseBatch(runId, t.raw, t.canonical, drafts, t.lastEventSeq);
  }

  lemma {:induction false} PersistConserves<C>(runId: string, red: Reducer<C>, t: Tables<C>, job: Job)
    requires SeqsConserved(t) && job.Persist?
    ensures var r := Atomic(runId, red, t, job);
            && SeqsConserved(r)
            && AllRows(r) == AllRows(t) + Map(RowOf, Prepare(runId, job.drafts, t.lastEventSeq + 2))
            && r.raw == t.raw[t.lastEventSeq + 1 := RawRow(t.lastEventSeq + 1, job.source, job.raw)]
  {
    NextIsFresh(t);
    DenseIngest(runId, t.raw, t.canonical, RawRow(t.lastEventSeq + 1, job.source, job.raw), job.drafts, t.lastEventSeq);
  }

  lemma {:induction false} CommitConserves<C>(runId: string, red: Reducer<C>, t: Tables<C>, job: Job)
    requires SeqsConserved(t) && !job.Rebuild?
    ensures SeqsConserved(Atomic(runId, red, t, job))
    ensures AllRows(Atomic(runId, red, t, job)) == AllRows(t) + Map(RowOf, EventsOf(runId, job, t))
  {
    if job.Emit? {
      EmitConserves(runId, red, t, job.drafts);
    } else {
      PersistConserves(runId, red, t, job);
    }
  }

  /** A log extended by a batch numbered after it is still increasing and in range. */
  lemma {:induction false} LogExtends(log: seq<Event>, es: seq<Event>, n: nat, start: nat)
    requires Increasing(log) && forall i :: 0 <= i < |log| ==> 1 <= log[i].seqNo <= n
    requires start > n && forall i :: 0 <= i < |es| ==> es[i].seqNo == start + i
    ensures Increasing(log + es) && forall i :: 0 <= i < |log + es| ==> 1 <= (log + es)[i].seqNo < start + |es|
  {}

  lemma {:induction false} CommitKeepsLog<C>(runId: string, red: Reducer<C>, w: World<C>, job: Job)
    requires LogStored(w)
    ensures LogStored(Committed(runId, red, w, job))
  {
    if job.Rebuild? {
      RebuildKeepsLog(runId, red, w);
    } else {
      BatchKeepsLog(runId, red, w, job);
    }
  }

  lemma {:induction false} RebuildKeepsLog<C>(runId: string, red: Reducer<C>, w: World<C>)
    requires LogStored(w)
    ensures LogStored(Committed(runId, red, w, Rebuild))
  {
    assert w.log + [] == w.log;
  }

  lemma {:induction false} BatchKeepsLog<C>(runId: string, red: Reducer<C>, w: World<C>, job: Job)
    requires LogStored(w) && !job.Rebuild?
    ensures LogStored(Committed(runId, red, w, job))
  {
    var es, start := EventsOf(runId, job, w.t), StartOf(job, w.t);
    BatchRows(runId, job.drafts, start);
    LogExtends(w.log, es, w.t.lastEventSeq, start);
    CommitConserves(runId, red, w.t, job);
    MapAppend(RowOf, w.log, es);
  }

  // ---- Cache agreement ------------------------------------------------------------------------

  /**
   * The stored row is the fold of the committed log, read as the last rebuild left it, and its
   * version is the log's last sequence number.
   */
  ghost predicate CacheAgrees<C>(red: Reducer<C>, w: World<C>) {
    && w.rebuilt <= |w.log|
    && match w.t.projection
       case None => w.log == []
       case Some(row) => row.cols == red.apply(red.empty, Folded(w)) && row.version == LastSeq(w.log)
  }

  lemma {:induction false} FoldedLastSeq<C>(w: World<C>)
    requires w.rebuilt <= |w.log|
    ensures LastSeq(Folded(w)) == LastSeq(w.log)
  {
    if w.log != [] && w.rebuilt == |w.log| {
      var k := |w.log| - 1;
      assert Folded(w)[k] == Strip(w.log[k]);
    }
  }

  lemma {:induction false} FoldedAppend<C>(w: World<C>, t: Tables<C>, es: seq<Event>)
    requires w.rebuilt <= |w.log|
    ensures Folded(World(t, w.log + es, w.rebuilt)) == Folded(w) + es
  {
    assert (w.log + es)[..w.rebuilt] == w.log[..w.rebuilt];
    assert (w.log + es)[w.rebuilt..] == w.log[w.rebuilt..] + es;
  }

  /** One normal write: the version guard lets it through exactly when it carries something new. */
  lemma {:induction false} ApplyAgrees<C>(red: Reducer<C>, w: World<C>, es: seq<Event>)
    requires Lawful(red) && CacheAgrees(red, w)
    requires es != [] ==> LastSeq(w.log) < LastSeq(es)
    ensures var row := NextProjection(w.t.projection, ApplyStatement(red, w.t.projection, es));
            && row.Some?
            && row.value.cols == red.apply(red.empty, Folded(w) + es)
            && row.value.version == LastSeq(w.log + es)
  {
    var current := Current(red, w.t.projection);
    FoldedLastSeq(w);
    assert w.log == [] ==> Folded(w) == [];
    assert current == red.apply(red.empty, Folded(w));
    assert Composes(red, Folded(w), es) && KeepsLastSeq(red, Folded(w));
    if es == [] {
      assert Folded(w) + es == Folded(w) && w.log + es == w.log;
    }
  }

  lemma {:induction false} BatchKeepsCache<C>(runId: string, red: Reducer<C>, w: World<C>, job: Job)
    requires Lawful(red) && LogStored(w) && CacheAgrees(red, w) && !job.Rebuild?
    ensures CacheAgrees(red, Committed(runId, red, w, job))
  {
    var es := EventsOf(runId, job, w.t);
    BatchRows(runId, job.drafts, StartOf(job, w.t));
    FoldedAppend(w, Atomic(runId, red, w.t, job), es);
    ApplyAgrees(red, w, es);
  }

  lemma {:induction false} RebuildKeepsCache<C>(runId: string, red: Reducer<C>, w: World<C>)
    requires LogStored(w) && CacheAgrees(red, w)
    ensures CacheAgrees(red, Committed(runId, red, w, Rebuild))
    ensures Folded(Committed(runId, red, w, Rebuild)) == Map(Strip, w.log)
  {
    var w' := Committed(runId, red, w, Rebuild);
    assert w'.log == w.log;
    assert Folded(w') == Map(Strip, w.log) by {
      assert w.log[..|w.log|] == w.log && w.log[|w.log|..] == [];
      assert Map(Strip, w.log) + [] == Map(Strip, w.log);
    }
    MapCompose(w.log);
    RowLastSeq(w.log);
  }

  lemma {:induction false} RowLastSeq(es: seq<Event>)
    ensures es != [] ==> Map(RowOf, es)[|es| - 1].seqNo == LastSeq(es)
  {
    MapIndex(RowOf, es);
  }

  lemma {:induction false} MapCompose(es: seq<Event>)
    ensures Map(CastRow, Map(RowOf, es)) == Map(Strip, es)
  {
    MapIndex(RowOf, es);
    MapIndex(CastRow, Map(RowOf, es));
    MapIndex(Strip, es);
  }

  ghost predicate WorldOk<C>(red: Reducer<C>, w: World<C>) { LogStored(w) && CacheAgrees(red, w) }

  lemma {:induction false} CommitKeeps<C>(runId: string, red: Reducer<C>, w: World<C>, job: Job)
    requires Lawful(red) && WorldOk(red, w)
    ensures WorldOk(red, Committed(runId, red, w, job))
  {
    CommitKeepsLog(runId, red, w, job);
    if job.Rebuild? {
      RebuildKeepsCache(runId, red, w);
    } else {
      BatchKeepsCache(runId, red, w, job);
    }
  }

  /** Along every history: sequence numbers are conserved, the log is stored, and the cache agrees with it. */
  lemma {:induction false} HistoryOk<C>(runId: string, red: Reducer<C>, w: World<C>, jobs: seq<Job>)
    requires Lawful(red) && WorldOk(red, w)
    ensures WorldOk(red, History(runId, red, w, jobs))
    ensures History(runId, red, w, jobs).t == Serial(runId, red, w.t, jobs)
    ensures w.log <= History(runId, red, w, jobs).log
    ensures (forall j :: j in jobs ==> !j.Rebuild?) ==> History(runId, red, w, jobs).rebuilt == w.rebuilt
    decreases |jobs|
  {
    if jobs != [] {
      var n := |jobs| - 1;
      HistoryOk(runId, red, w, jobs[..n]);
      CommitKeeps(runId, red, History(runId, red, w, jobs[..n]), jobs[n]);
    }
  }

  lemma {:induction false} NewWorldOk<C>(red: Reducer<C>, session: Option<SessionRow>)
    requires Lawful(red)
    ensures WorldOk(red, NewWorld<C>(session))
  {
    var w := NewWorld<C>(session);
    assert AllRows(w.t) == [] == Map(RowOf, w.log);
    assert LogStored(w);
  }

  /**
   * The main result: at every point of every interleaving of committing and aborting event
   * transactions and rebuilds, the committed sequence numbers are exactly 1..last with raw and
   * canonical rows disjoint, the canonical rows are the committed log in commit order, and the
   * cached projection agrees with the fold of that log.
   */
  lemma {:induction false} CacheAgreesUnderInterleaving<C>(runId: string, red: Reducer<C>, session: Option<SessionRow>,
      tr: seq<System<C>>, i: nat)
    requires Lawful(red) && Run(true, runId, red, NewWorld<C>(session).t, tr) && i < |tr|
    ensures var w := History(runId, red, NewWorld<C>(session), tr[i].committed);
            w.t == tr[i].db && WorldOk(red, w)
  {
    Serializable(runId, red, NewWorld<C>(session).t, tr);
    NewWorldOk(red, session);
    HistoryOk(runId, red, NewWorld<C>(session), tr[i].committed);
  }
}
