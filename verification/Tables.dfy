/**
 * The rows of one run across the tables the ingest pipeline writes, and the statements that write
 * them.  The reducer is a parameter: everything here holds for any state type it folds events into.
 */
module Tables {
  import opened Prelude
  import opened Events

  datatype Envelope = Envelope(messageId: string, body: string)

  datatype RawEvent =
    | StreamEnvelope(envelope: Envelope)
    | StreamStatus(status: string)
    | InlineError(code: string, message: string)
    | SessionSnapshot(state: SessionState)

  /** Which consumer received a raw event: the per-session stream, or the ambient signal watch. */
  datatype RawSource = SessionStream | Ambient

  datatype RawRow = RawRow(seqNo: nat, source: RawSource, raw: RawEvent)

  datatype ProjectionRow<C> = ProjectionRow(version: nat, cols: C)

  datatype SessionRow = SessionRow(lastStreamCursor: Option<nat>, lastEnvelopeOrdinal: nat)

  /** `run_events_raw` and `run_events_canonical` are keyed by their unique (run, seq) index. */
  datatype Tables<C> = Tables(
    lastEventSeq: nat, raw: map<nat, RawRow>, canonical: map<nat, Row>,
    projection: Option<ProjectionRow<C>>, session: Option<SessionRow>)

  /** `empty(runId)`, `applyEvents` on the stored columns, and the `timeline.latestSeq` of those columns. */
  datatype Reducer<!C> = Reducer(empty: C, apply: (C, seq<Event>) -> C, latestSeq: C -> nat)

  function Max(a: nat, b: nat): nat { if a < b then b else a }

  // ---- Statements -----------------------------------------------------------------------------

  datatype Statement<C> =
    | Lock
    | Allocate(count: nat)
    | InsertRaw(row: RawRow)
    | InsertCanonical(rows: seq<Row>)
    | Upsert(version: nat, cols: C, force: bool)
    | MoveCursor(cursor: nat, ordinal: nat)

  /** `insert … onConflictDoNothing`, row by row. */
  function InsertRows(c: map<nat, Row>, rows: seq<Row>): map<nat, Row>
    decreases |rows|
  {
    if rows == [] then c
    else
      var prev := InsertRows(c, rows[..|rows| - 1]);
      var r := rows[|rows| - 1];
      if r.seqNo in prev then prev else prev[r.seqNo := r]
  }

  function NextSeq<C>(n: nat, s: Statement<C>): nat { if s.Allocate? then n + s.count else n }

  function NextRaw<C>(raw: map<nat, RawRow>, s: Statement<C>): map<nat, RawRow> {
    if s.InsertRaw? && s.row.seqNo !in raw then raw[s.row.seqNo := s.row] else raw
  }

  function NextCanonical<C>(c: map<nat, Row>, s: Statement<C>): map<nat, Row> {
    if s.InsertCanonical? then InsertRows(c, s.rows) else c
  }

  /** The upsert: insert, or update when forced or when the stored version is lower. */
  function NextProjection<C>(p: Option<ProjectionRow<C>>, s: Statement<C>): Option<ProjectionRow<C>> {
    if s.Upsert? && (p.None? || s.force || p.value.version < s.version) then Some(ProjectionRow(s.version, s.cols)) else p
  }

  /** `updateStreamCursor`: both markers are floors, and a missing row is left missing. */
  function NextSession<C>(r: Option<SessionRow>, s: Statement<C>): Option<SessionRow> {
    if s.MoveCursor? && r.Some?
    then Some(SessionRow(Some(Max(r.value.lastStreamCursor.Or(0), s.cursor)), Max(r.value.lastEnvelopeOrdinal, s.ordinal)))
    else r
  }

  function Execute<C>(t: Tables<C>, s: Statement<C>): Tables<C> {
    Tables(NextSeq(t.lastEventSeq, s), NextRaw(t.raw, s), NextCanonical(t.canonical, s),
           NextProjection(t.projection, s), NextSession(t.session, s))
  }

  function ExecuteAll<C>(t: Tables<C>, ss: seq<Statement<C>>): Tables<C> { Foldl(Execute, t, ss) }

  /**
   * An unforced write lands only on a row of a lower version, and a forced one always; so without
   * force the version never goes back, and a write of a version already stored changes nothing.
   */
  lemma {:induction false} GuardSays<C>(row: ProjectionRow<C>, version: nat, cols: C)
    ensures NextProjection(Some(row), Upsert(version, cols, true)) == Some(ProjectionRow(version, cols))
    ensures NextProjection(Some(row), Upsert(version, cols, false)) ==
      Some(if version > row.version then ProjectionRow(version, cols) else row)
  {}

  // ---- Queries --------------------------------------------------------------------------------

  /** `listCanonicalUpTo`: rows with seq at most n, in seq order. */
  function RowsUpTo(c: map<nat, Row>, n: nat): seq<Row> {
    if n == 0 then [] else RowsUpTo(c, n - 1) + if n in c then [c[n]] else []
  }

  function AllRows<C>(t: Tables<C>): seq<Row> { RowsUpTo(t.canonical, t.lastEventSeq) }

  /** Session-stream envelopes with seq at most n, in seq order. */
  function EnvelopesUpTo(raw: map<nat, RawRow>, n: nat): seq<Envelope> {
    if n == 0 then []
    else EnvelopesUpTo(raw, n - 1)
         + if n in raw && raw[n].source.SessionStream? && raw[n].raw.StreamEnvelope? then [raw[n].raw.envelope] else []
  }

  function StoredEnvelopes<C>(t: Tables<C>): seq<Envelope> { EnvelopesUpTo(t.raw, t.lastEventSeq) }

  /** `ProjectionService.get(runId) ?? empty(runId)`, on the stored columns. */
  function Current<C>(red: Reducer<C>, row: Option<ProjectionRow<C>>): C {
    if row.Some? then row.value.cols else red.empty
  }

  // ---- Transactions ---------------------------------------------------------------------------

  datatype Job =
    | Emit(drafts: seq<Event>)
    | Persist(raw: RawEvent, source: RawSource, drafts: seq<Event>, ordinal: Option<nat>)
    | Rebuild

  function Stamp(e: Event, runId: string, n: nat): Event { e.(runId := runId, seqNo := n) }

  /** The drafts, stamped with sequence numbers from `start` on. */
  function Prepare(runId: string, drafts: seq<Event>, start: nat): seq<Event> {
    seq(|drafts|, i requires 0 <= i < |drafts| => Stamp(drafts[i], runId, start + i))
  }

  /** `applyAndPersist`: fold the batch into what is stored; an empty batch keeps the old version. */
  function ApplyStatement<C>(red: Reducer<C>, row: Option<ProjectionRow<C>>, es: seq<Event>): Statement<C> {
    var current := Current(red, row);
    Upsert(if es != [] then es[|es| - 1].seqNo else red.latestSeq(current), red.apply(current, es), false)
  }

  /** `rebuild`: fold the rows, as cast rather than converted, into an unconditional write. */
  function RebuildStatement<C>(red: Reducer<C>, rows: seq<Row>): Statement<C> {
    Upsert(if rows != [] then rows[|rows| - 1].seqNo else 0, red.apply(red.empty, Map(CastRow, rows)), true)
  }

  /** The statements a transaction issues when nothing else runs. */
  function Program<C>(runId: string, red: Reducer<C>, job: Job, t: Tables<C>): seq<Statement<C>> {
    match job
    case Emit(drafts) =>
      var es := Prepare(runId, drafts, t.lastEventSeq + 1);
      [Allocate(|drafts|), InsertCanonical(Map(RowOf, es)), ApplyStatement(red, t.projection, es)]
    case Persist(raw, source, drafts, ordinal) =>
      var start := t.lastEventSeq + 1;
      var es := Prepare(runId, drafts, start + 1);
      [Allocate(1 + |drafts|), InsertRaw(RawRow(start, source, raw)), InsertCanonical(Map(RowOf, es)),
       ApplyStatement(red, t.projection, es)]
      + if ordinal.Some? then [MoveCursor(start + |drafts|, ordinal.value)] else []
    case Rebuild =>
      [Lock, RebuildStatement(red, AllRows(t))]
  }

  /** The transaction as one step: what it leaves in each table. */
  function Atomic<C>(runId: string, red: Reducer<C>, t: Tables<C>, job: Job): Tables<C> {
    match job
    case Emit(drafts) =>
      var es := Prepare(runId, drafts, t.lastEventSeq + 1);
      Tables(t.lastEventSeq + |drafts|, t.raw, InsertRows(t.canonical, Map(RowOf, es)),
             NextProjection(t.projection, ApplyStatement(red, t.projection, es)), t.session)
    case Persist(raw, source, drafts, ordinal) =>
      var start := t.lastEventSeq + 1;
      var es := Prepare(runId, drafts, start + 1);
      Tables(start + |drafts|,
             if start in t.raw then t.raw else t.raw[start := RawRow(start, source, raw)],
             InsertRows(t.canonical, Map(RowOf, es)),
             NextProjection(t.projection, ApplyStatement(red, t.projection, es)),
             if ordinal.Some? then NextSession<C>(t.session, MoveCursor(start + |drafts|, ordinal.value)) else t.session)
    case Rebuild =>
      t.(projection := NextProjection(t.projection, RebuildStatement(red, AllRows(t))))
  }

  /** The canonical events a job appends when it starts from t. */
  function EventsOf<C>(runId: string, job: Job, t: Tables<C>): seq<Event> {
    match job
    case Emit(drafts) => Prepare(runId, drafts, t.lastEventSeq + 1)
    case Persist(_, _, drafts, _) => Prepare(runId, drafts, t.lastEventSeq + 2)
    case Rebuild => []
  }

  /** Statements of different kinds touch different tables, so a program's effect reads off kind by kind. */
  lemma {:induction false} ProgramEffect<C>(t: Tables<C>, a: Statement<C>, r: Statement<C>, c: Statement<C>,
      u: Statement<C>, m: Statement<C>)
    requires a.Allocate? && r.InsertRaw? && c.InsertCanonical? && u.Upsert? && m.MoveCursor?
    ensures ExecuteAll(t, [a, c, u])
         == Tables(t.lastEventSeq + a.count, t.raw, InsertRows(t.canonical, c.rows), NextProjection(t.projection, u), t.session)
    ensures ExecuteAll(t, [a, r, c, u])
         == Tables(t.lastEventSeq + a.count, NextRaw(t.raw, r), InsertRows(t.canonical, c.rows), NextProjection(t.projection, u), t.session)
    ensures ExecuteAll(t, [a, r, c, u, m])
         == Tables(t.lastEventSeq + a.count, NextRaw(t.raw, r), InsertRows(t.canonical, c.rows), NextProjection(t.projection, u),
                   NextSession(t.session, m))
  {
    Unrolled(t, [a, c, u]);
    Unrolled(t, [a, r, c, u]);
    Unrolled(t, [a, r, c, u, m]);
  }

  /** Issued one by one, the statements of a job have exactly its atomic effect. */
  lemma {:induction false} AtomicIsProgram<C>(runId: string, red: Reducer<C>, t: Tables<C>, job: Job)
    ensures ExecuteAll(t, Program(runId, red, job, t)) == Atomic(runId, red, t, job)
  {
    match job
    case Emit(drafts) => EmitIsProgram(runId, red, t, drafts);
    case Persist(_, _, _, _) => PersistIsProgram(runId, red, t, job);
    case Rebuild => Unrolled(t, Program(runId, red, job, t));
  }

  lemma {:induction false} EmitIsProgram<C>(runId: string, red: Reducer<C>, t: Tables<C>, drafts: seq<Event>)
    ensures ExecuteAll(t, Program(runId, red, Emit(drafts), t)) == Atomic(runId, red, t, Emit(drafts))
  {
    var p := Program(runId, red, Emit(drafts), t);
    assert p == [p[0], p[1], p[2]];
    ProgramEffect(t, p[0], InsertRaw(RawRow(0, Ambient, StreamStatus(""))), p[1], p[2], MoveCursor(0, 0));
  }

  lemma {:induction false} PersistIsProgram<C>(runId: string, red: Reducer<C>, t: Tables<C>, job: Job)
    requires job.Persist?
    ensures ExecuteAll(t, Program(runId, red, job, t)) == Atomic(runId, red, t, job)
  {
    var p := Program(runId, red, job, t);
    var m := MoveCursor(t.lastEventSeq + 1 + |job.drafts|, job.ordinal.Or(0));
    assert p == if job.ordinal.Some? then [p[0], p[1], p[2], p[3], m] else [p[0], p[1], p[2], p[3]];
    ProgramEffect(t, p[0], p[1], p[2], p[3], m);
  }

  /** A short program, statement by statement. */
  lemma {:induction false} Unrolled<C>(t: Tables<C>, p: seq<Statement<C>>)
    ensures |p| == 2 ==> ExecuteAll(t, p) == Execute(Execute(t, p[0]), p[1])
    ensures |p| == 3 ==> ExecuteAll(t, p) == Execute(Execute(Execute(t, p[0]), p[1]), p[2])
    ensures |p| == 4 ==> ExecuteAll(t, p) == Execute(Execute(Execute(Execute(t, p[0]), p[1]), p[2]), p[3])
    ensures |p| == 5
      ==> ExecuteAll(t, p) == Execute(Execute(Execute(Execute(Execute(t, p[0]), p[1]), p[2]), p[3]), p[4])
  {
    var n := |p|;
    if 2 <= n <= 5 {
      assert p[..n] == p;
      Peel(t, p, 0);
      Peel(t, p, 1);
      if n > 2 { Peel(t, p, 2); }
      if n > 3 { Peel(t, p, 3); }
      if n > 4 { Peel(t, p, 4); }
    }
  }

  lemma {:induction false} Peel<C>(t: Tables<C>, p: seq<Statement<C>>, k: nat)
    requires k < |p|
    ensures ExecuteAll(t, p[..k + 1]) == Execute(ExecuteAll(t, p[..k]), p[k])
    ensures k == 0 ==> ExecuteAll(t, p[..k]) == t
  {
    assert p[..k + 1][..k] == p[..k];
  }
}
