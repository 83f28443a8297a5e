/**
 * Any number of event transactions on one run, interleaved statement by statement.
 *
 * A transaction sees committed rows plus its own writes.  Its first statement updates (or locks)
 * the `runs` row, so it waits until no other open transaction has; the lock goes at commit or
 * rollback.  Every committed state is then the result of running the committed transactions one
 * after another, in commit order.
 */
module Interleaving {
  import opened Prelude
  import opened Events
  import opened Tables

  datatype Tx<C> = Tx(job: Job, pc: nat, start: nat, issued: seq<Statement<C>>)

  datatype System<C> = System(db: Tables<C>, holder: Option<nat>, running: map<nat, Tx<C>>, committed: seq<Job>)

  function Length(job: Job): nat {
    match job
    case Emit(_) => 3
    case Persist(_, _, _, ordinal) => if ordinal.Some? then 5 else 4
    case Rebuild => 2
  }

  /** The statement a transaction issues next, from what it remembers and what it sees. */
  function NextStatement<C>(runId: string, red: Reducer<C>, job: Job, pc: nat, start: nat,
      view: Tables<C>): Statement<C>
    requires pc < Length(job)
  {
    match job
    case Emit(drafts) =>
      if pc == 0 then Allocate(|drafts|)
      else if pc == 1 then InsertCanonical(Map(RowOf, Prepare(runId, drafts, start)))
      else ApplyStatement(red, view.projection, Prepare(runId, drafts, start))
    case Persist(raw, source, drafts, ordinal) =>
      if pc == 0 then Allocate(1 + |drafts|)
      else if pc == 1 then InsertRaw(RawRow(start, source, raw))
      else if pc == 2 then InsertCanonical(Map(RowOf, Prepare(runId, drafts, start + 1)))
      else if pc == 3 then ApplyStatement(red, view.projection, Prepare(runId, drafts, start + 1))
      else MoveCursor(start + |drafts|, ordinal.value)
    case Rebuild =>
      if pc == 0 then Lock else RebuildStatement(red, AllRows(view))
  }

  /** What a transaction sees: committed rows and its own uncommitted writes. */
  function View<C>(db: Tables<C>, tx: Tx<C>): Tables<C> { ExecuteAll(db, tx.issued) }

  ghost predicate Begin<C>(s: System<C>, s': System<C>, id: nat, job: Job) {
    && id !in s.running && (job.Emit? ==> job.drafts != [])
    && s' == s.(running := s.running[id := Tx(job, 0, 0, [])])
  }

  /** `locked` says whether the first statement keeps the row lock; see `LostWithoutTheLock`. */
  ghost predicate Issue<C>(locked: bool, runId: string, red: Reducer<C>, s: System<C>, s': System<C>, id: nat) {
    && id in s.running && s.running[id].pc < Length(s.running[id].job)
    && var tx := s.running[id];
       var view := View(s.db, tx);
       var stmt := NextStatement(runId, red, tx.job, tx.pc, tx.start, view);
       if tx.pc > 0 then
         s' == s.(running := s.running[id := tx.(pc := tx.pc + 1, issued := tx.issued + [stmt])])
       else if locked then
         && s.holder.None?
         && s' == s.(holder := Some(id),
                     running := s.running[id := Tx(tx.job, 1, view.lastEventSeq + 1, [stmt])])
       else
         s' == s.(db := Execute(s.db, stmt), running := s.running[id := Tx(tx.job, 1, view.lastEventSeq + 1, [])])
  }

  ghost predicate Commit<C>(s: System<C>, s': System<C>, id: nat) {
    && id in s.running && s.running[id].pc == Length(s.running[id].job)
    && s' == System(View(s.db, s.running[id]), if s.holder == Some(id) then None else s.holder,
                    s.running - {id}, s.committed + [s.running[id].job])
  }

  ghost predicate Rollback<C>(s: System<C>, s': System<C>, id: nat) {
    && id in s.running
    && s' == s.(holder := if s.holder == Some(id) then None else s.holder, running := s.running - {id})
  }

  datatype Action = BeginTx(id: nat, job: Job) | IssueNext(id: nat) | CommitTx(id: nat) | RollbackTx(id: nat)

  ghost predicate Does<C>(locked: bool, runId: string, red: Reducer<C>, s: System<C>, s': System<C>, a: Action) {
    match a
    case BeginTx(id, job) => Begin(s, s', id, job)
    case IssueNext(id) => Issue(locked, runId, red, s, s', id)
    case CommitTx(id) => Commit(s, s', id)
    case RollbackTx(id) => Rollback(s, s', id)
  }

  ghost predicate Next<C>(locked: bool, runId: string, red: Reducer<C>, s: System<C>, s': System<C>) {
    exists a: Action :: Does(locked, runId, red, s, s', a)
  }

  ghost predicate Run<C>(locked: bool, runId: string, red: Reducer<C>, db: Tables<C>, tr: seq<System<C>>) {
    && tr != [] && tr[0] == System(db, None, map[], [])
    && forall i :: 0 <= i < |tr| - 1 ==> Next(locked, runId, red, tr[i], tr[i + 1])
  }

  /** The committed jobs, one after another. */
  function Serial<C>(runId: string, red: Reducer<C>, db: Tables<C>, jobs: seq<Job>): Tables<C> {
    Foldl((t, j) => Atomic(runId, red, t, j), db, jobs)
  }

  /** The transaction has issued exactly what it would have issued alone. */
  ghost predicate OnCourse<C>(runId: string, red: Reducer<C>, db: Tables<C>, tx: Tx<C>) {
    && tx.pc <= Length(tx.job)
    && |Program(runId, red, tx.job, db)| == Length(tx.job)
    && tx.issued == Program(runId, red, tx.job, db)[..tx.pc]
    && (tx.pc > 0 ==> tx.start == db.lastEventSeq + 1)
  }

  ghost predicate Invariant<C>(runId: string, red: Reducer<C>, db0: Tables<C>, s: System<C>) {
    && s.db == Serial(runId, red, db0, s.committed)
    && (s.holder.Some? ==> s.holder.value in s.running && s.running[s.holder.value].pc > 0)
    && (forall id :: id in s.running ==>
          && (s.running[id].pc > 0 ==> s.holder == Some(id))
          && OnCourse(runId, red, s.db, s.running[id]))
  }

  lemma {:induction false} NoUpsertYet<C>(t: Tables<C>, p: seq<Statement<C>>)
    requires forall i :: 0 <= i < |p| ==> !p[i].Upsert?
    ensures ExecuteAll(t, p).projection == t.projection
    decreases |p|
  {
    if p != [] {
      NoUpsertYet(t, p[..|p| - 1]);
    }
  }

  /** Alone with the lock, the next statement is the one the serial program has there. */
  lemma {:induction false} StaysOnCourse<C>(runId: string, red: Reducer<C>, db: Tables<C>, tx: Tx<C>)
    requires OnCourse(runId, red, db, tx) && 0 < tx.pc < Length(tx.job)
    ensures NextStatement(runId, red, tx.job, tx.pc, tx.start, View(db, tx)) == Program(runId, red, tx.job, db)[tx.pc]
  {
    var p := Program(runId, red, tx.job, db);
    if !p[tx.pc].MoveCursor? && !tx.job.Rebuild? {
      assert forall i :: 0 <= i < tx.pc ==> !p[i].Upsert?;
      NoUpsertYet(db, p[..tx.pc]);
    } else if tx.job.Rebuild? {
      assert p[..1] == [Lock];
      Peel(db, p, 0);
    }
  }

  /** The transaction after its next statement is still on course. */
  lemma {:induction false} CourseContinues<C>(runId: string, red: Reducer<C>, db: Tables<C>, tx: Tx<C>)
    requires OnCourse(runId, red, db, tx) && 0 < tx.pc < Length(tx.job)
    ensures var stmt := NextStatement(runId, red, tx.job, tx.pc, tx.start, View(db, tx));
      OnCourse(runId, red, db, tx.(pc := tx.pc + 1, issued := tx.issued + [stmt]))
  {
    var p := Program(runId, red, tx.job, db);
    StaysOnCourse(runId, red, db, tx);
    assert p[..tx.pc + 1] == p[..tx.pc] + [p[tx.pc]];
  }

  lemma {:induction false} CourseBegins<C>(runId: string, red: Reducer<C>, db: Tables<C>, tx: Tx<C>)
    requires OnCourse(runId, red, db, tx) && tx.pc == 0
    ensures View(db, tx) == db
    ensures var stmt := NextStatement(runId, red, tx.job, 0, tx.start, db);
      OnCourse(runId, red, db, Tx(tx.job, 1, db.lastEventSeq + 1, [stmt]))
  {
    var p := Program(runId, red, tx.job, db);
    assert tx.issued == [] && p[..1] == [p[0]];
  }

  lemma {:induction false} IssueKeeps<C>(runId: string, red: Reducer<C>, db0: Tables<C>, s: System<C>, s': System<C>,
      id: nat)
    requires Invariant(runId, red, db0, s) && Issue(true, runId, red, s, s', id)
    ensures Invariant(runId, red, db0, s')
  {
    var tx := s.running[id];
    if tx.pc > 0 {
      CourseContinues(runId, red, s.db, tx);
    } else {
      CourseBegins(runId, red, s.db, tx);
    }
  }

  lemma {:induction false} CommitKeeps<C>(runId: string, red: Reducer<C>, db0: Tables<C>, s: System<C>, s': System<C>,
      id: nat)
    requires Invariant(runId, red, db0, s) && Commit(s, s', id)
    ensures Invariant(runId, red, db0, s')
  {
    var tx := s.running[id];
    var p := Program(runId, red, tx.job, s.db);
    assert p[..|p|] == p;
    AtomicIsProgram(runId, red, s.db, tx.job);
    assert s'.db == Atomic(runId, red, s.db, tx.job);
    assert s'.committed[..|s.committed|] == s.committed;
    forall other | other in s'.running ensures OnCourse(runId, red, s'.db, s'.running[other]) && s'.running[other].pc == 0 {
      assert s.holder == Some(id);
      ProgramLength(runId, red, s'.running[other].job, s'.db);
    }
  }

  lemma {:induction false} ProgramLength<C>(runId: string, red: Reducer<C>, job: Job, t: Tables<C>)
    ensures |Program(runId, red, job, t)| == Length(job)
  {}

  lemma {:induction false} BeginKeeps<C>(runId: string, red: Reducer<C>, db0: Tables<C>, s: System<C>, s': System<C>,
      id: nat, job: Job)
    requires Invariant(runId, red, db0, s) && Begin(s, s', id, job)
    ensures Invariant(runId, red, db0, s')
  {
    ProgramLength(runId, red, job, s.db);
    assert OnCourse(runId, red, s.db, Tx(job, 0, 0, []));
  }

  lemma {:induction false} RollbackKeeps<C>(runId: string, red: Reducer<C>, db0: Tables<C>, s: System<C>, s': System<C>,
      id: nat)
    requires Invariant(runId, red, db0, s) && Rollback(s, s', id)
    ensures Invariant(runId, red, db0, s')
  {}

  lemma {:induction false} NextKeeps<C>(runId: string, red: Reducer<C>, db0: Tables<C>, s: System<C>, s': System<C>)
    requires Invariant(runId, red, db0, s) && Next(true, runId, red, s, s')
    ensures Invariant(runId, red, db0, s')
  {
    var a: Action :| Does(true, runId, red, s, s', a);
    match a
    case BeginTx(id, job) => BeginKeeps(runId, red, db0, s, s', id, job);
    case IssueNext(id) => IssueKeeps(runId, red, db0, s, s', id);
    case CommitTx(id) => CommitKeeps(runId, red, db0, s, s', id);
    case RollbackTx(id) => RollbackKeeps(runId, red, db0, s, s', id);
  }

  /**
   * Serializability: at every point of every interleaving, the committed tables are what the
   * committed transactions give when run one after another in commit order.
   */
  lemma {:induction false} Serializable<C>(runId: string, red: Reducer<C>, db: Tables<C>, tr: seq<System<C>>)
    requires Run(true, runId, red, db, tr)
    ensures forall i :: 0 <= i < |tr| ==> Invariant(runId, red, db, tr[i])
    ensures forall i :: 0 <= i < |tr| ==> tr[i].db == Serial(runId, red, db, tr[i].committed)
  {
    for i := 0 to |tr| - 1
      invariant forall k :: 0 <= k <= i ==> Invariant(runId, red, db, tr[k])
    {
      NextKeeps(runId, red, db, tr[i], tr[i + 1]);
    }
  }

  // ---- Why the lock is needed -----------------------------------------------------------------

  /** One event emitted by a transaction whose allocation was not kept in the transaction. */
  function Unlocked<C>(runId: string, red: Reducer<C>, d: Event, n: nat, pc: nat): Tx<C>
    requires pc <= 3
  {
    var es := Prepare(runId, [d], n);
    Tx(Emit([d]), pc, if pc == 0 then 0 else n,
       if pc < 2 then [] else if pc == 2 then [InsertCanonical(Map(RowOf, es))]
       else [InsertCanonical(Map(RowOf, es)), ApplyStatement(red, None, es)])
  }

  lemma {:induction false} UnlockedIssue<C>(runId: string, red: Reducer<C>, s: System<C>, d: Event, id: nat, n: nat,
      pc: nat)
    requires 1 <= pc < 3 && s.db.projection.None? && id in s.running && s.running[id] == Unlocked(runId, red, d, n, pc)
    ensures Next(false, runId, red, s, s.(running := s.running[id := Unlocked(runId, red, d, n, pc + 1)]))
  {
    var tx, tx' := s.running[id], Unlocked(runId, red, d, n, pc + 1);
    var s' := s.(running := s.running[id := tx']);
    NoUpsertYet(s.db, tx.issued);
    assert tx'.issued == tx.issued + [NextStatement(runId, red, tx.job, pc, n, View(s.db, tx))];
    assert Does(false, runId, red, s, s', IssueNext(id));
  }

  /** Before the lock: the two begin and allocate. */
  lemma {:induction false} BothAllocate<C>(runId: string, red: Reducer<C>, session: Option<SessionRow>, a: Event,
      b: Event)
    returns (tr: seq<System<C>>)
    ensures Run(false, runId, red, Tables(0, map[], map[], None, session), tr)
    ensures tr[|tr| - 1] == System(Tables(2, map[], map[], None, session), None,
                                   map[1 := Unlocked(runId, red, a, 1, 1), 2 := Unlocked(runId, red, b, 2, 1)], [])
  {
    var db: Tables<C> := Tables(0, map[], map[], None, session);
    var s0: System<C> := System(db, None, map[], []);
    var s1: System<C> := s0.(running := map[1 := Unlocked(runId, red, a, 1, 0)]);
    assert Does(false, runId, red, s0, s1, BeginTx(1, Emit([a])));
    var s2: System<C> := s1.(running := s1.running[2 := Unlocked(runId, red, b, 2, 0)]);
    assert Does(false, runId, red, s1, s2, BeginTx(2, Emit([b])));
    var s3: System<C> := s2.(db := db.(lastEventSeq := 1), running := s2.running[1 := Unlocked(runId, red, a, 1, 1)]);
    assert Does(false, runId, red, s2, s3, IssueNext(1));
    var s4: System<C> := s3.(db := db.(lastEventSeq := 2), running := s3.running[2 := Unlocked(runId, red, b, 2, 1)]);
    assert Does(false, runId, red, s3, s4, IssueNext(2));
    tr := [s0, s1, s2, s3, s4];
    assert s4.running == map[1 := Unlocked(runId, red, a, 1, 1), 2 := Unlocked(runId, red, b, 2, 1)];
  }

  lemma {:induction false} RunExtends<C>(locked: bool, runId: string, red: Reducer<C>, db: Tables<C>,
      tr: seq<System<C>>, s: System<C>)
    requires Run(locked, runId, red, db, tr) && Next(locked, runId, red, tr[|tr| - 1], s)
    ensures Run(locked, runId, red, db, tr + [s])
  {}

  /** One of the two inserts its row and folds its event, seeing no stored projection. */
  lemma {:induction false} FoldsAlone<C>(runId: string, red: Reducer<C>, db: Tables<C>, tr: seq<System<C>>, d: Event,
      id: nat)
    returns (tr': seq<System<C>>)
    requires Run(false, runId, red, db, tr)
    requires var s := tr[|tr| - 1]; s.db.projection.None? && id in s.running && s.running[id] == Unlocked(runId, red, d, id, 1)
    ensures Run(false, runId, red, db, tr')
    ensures var s := tr[|tr| - 1]; tr'[|tr'| - 1] == s.(running := s.running[id := Unlocked(runId, red, d, id, 3)])
  {
    var s := tr[|tr| - 1];
    var s1: System<C> := s.(running := s.running[id := Unlocked(runId, red, d, id, 2)]);
    UnlockedIssue(runId, red, s, d, id, id, 1);
    RunExtends(false, runId, red, db, tr, s1);
    var s2: System<C> := s1.(running := s1.running[id := Unlocked(runId, red, d, id, 3)]);
    UnlockedIssue(runId, red, s1, d, id, id, 2);
    RunExtends(false, runId, red, db, tr + [s1], s2);
    assert s1.running[id := Unlocked(runId, red, d, id, 3)] == s.running[id := Unlocked(runId, red, d, id, 3)];
    tr' := tr + [s1] + [s2];
  }

  /** Both insert and fold before either commits, so neither fold sees the other's event. */
  lemma {:induction false} BothPending<C>(runId: string, red: Reducer<C>, session: Option<SessionRow>, a: Event,
      b: Event)
    returns (tr: seq<System<C>>)
    ensures Run(false, runId, red, Tables(0, map[], map[], None, session), tr)
    ensures tr[|tr| - 1] == System(Tables(2, map[], map[], None, session), None,
                                   map[1 := Unlocked(runId, red, a, 1, 3), 2 := Unlocked(runId, red, b, 2, 3)], [])
  {
    var db: Tables<C> := Tables(0, map[], map[], None, session);
    tr := BothAllocate(runId, red, session, a, b);
    tr := FoldsAlone(runId, red, db, tr, a, 1);
    tr := FoldsAlone(runId, red, db, tr, b, 2);
    assert tr[|tr| - 1].running == map[1 := Unlocked(runId, red, a, 1, 3), 2 := Unlocked(runId, red, b, 2, 3)];
  }

  /**
   * If the allocation does not keep the row lock, two emitters can both commit and the version
   * guard drops the lower one's fold: the log holds both events, the stored row only the second.
   */
  lemma {:induction false} LostWithoutTheLock<C>(runId: string, red: Reducer<C>, session: Option<SessionRow>, a: Event,
      b: Event)
    returns (tr: seq<System<C>>)
    ensures Run(false, runId, red, Tables(0, map[], map[], None, session), tr)
    ensures var s := tr[|tr| - 1];
            && s.committed == [Emit([b]), Emit([a])]
            && 1 in s.db.canonical && 2 in s.db.canonical
            && s.db.projection == Some(ProjectionRow(2, red.apply(red.empty, Prepare(runId, [b], 2))))
  {
    tr := BothPending(runId, red, session, a, b);
    var s8: System<C> := tr[|tr| - 1];
    var ta, tb := s8.running[1], s8.running[2];
    var ea, eb := Prepare(runId, [a], 1), Prepare(runId, [b], 2);
    assert Map(RowOf, eb) == [RowOf(eb[0])] && Map(RowOf, ea) == [RowOf(ea[0])];
    Unrolled(s8.db, tb.issued);
    var s9: System<C> := System(View(s8.db, tb), None, s8.running - {2}, [Emit([b])]);
    assert Does(false, runId, red, s8, s9, CommitTx(2));
    assert s9.db.projection == Some(ProjectionRow(2, red.apply(red.empty, eb)));
    assert InsertRows(map[], Map(RowOf, eb)) == map[2 := RowOf(eb[0])];
    Unrolled(s9.db, ta.issued);
    var s10: System<C> := System(View(s9.db, ta), None, s9.running - {1}, [Emit([b]), Emit([a])]);
    assert Does(false, runId, red, s9, s10, CommitTx(1));
    assert InsertRows(s9.db.canonical, Map(RowOf, ea)) == s9.db.canonical[1 := RowOf(ea[0])];
    RunExtends(false, runId, red, Tables(0, map[], map[], None, session), tr, s9);
    RunExtends(false, runId, red, Tables(0, map[], map[], None, session), tr + [s9], s10);
    tr := tr + [s9] + [s10];
  }
}
