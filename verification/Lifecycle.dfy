/**
 * One run's status row, driven by any number of concurrent markers (executor, discovery, stream
 * consumer, recovery, cancel): each reads the row, updates it conditionally, and only then, as a
 * separate step, logs its lifecycle event.
 */
module Lifecycle {
  import opened Prelude
  import opened Events

  /** `VALID_TRANSITIONS`. */
  function ValidTargets(from: RunStatus): seq<RunStatus> {
    match from
    case Queued => [Starting, Failed, Cancelled]
    case Starting => [BindingSession, Failed, Cancelled]
    case BindingSession => [Running, Failed, Cancelled]
    case Running => [Suspended, Completed, Failed, Cancelled]
    case Suspended => [Running, Completed, Failed, Cancelled]
    case Completed => []
    case Failed => []
    case Cancelled => []
  }

  predicate ValidTransition(from: RunStatus, to: RunStatus) { to in ValidTargets(from) }

  /**
   * What the table says: a run starts, binds and runs in that order, pauses and resumes only between
   * running and suspended, completes only from there, and fails or is cancelled from wherever it has
   * not ended.
   */
  lemma {:induction false} TableSays(from: RunStatus, to: RunStatus)
    ensures ValidTransition(from, to) <==>
      || (to in {Failed, Cancelled} && from !in {Completed, Failed, Cancelled})
      || (to == Completed && from in {Running, Suspended})
      || (to == Suspended && from == Running)
      || (to == Running && from in {BindingSession, Suspended})
      || (to == BindingSession && from == Starting)
      || (to == Starting && from == Queued)
  {}

  /** The columns of the `runs` row that the markers write. */
  datatype RunRow = RunRow(status: RunStatus, startedAt: Option<Time>, endedAt: Option<Time>)

  datatype Mark = MarkStarted | MarkBinding | MarkRunning | MarkResumed | MarkSuspended | MarkCompleted | MarkCancelled | MarkFailed
  {
    function Target(): RunStatus {
      match this
      case MarkStarted => Starting
      case MarkBinding => BindingSession
      case MarkRunning => Running
      case MarkResumed => Running
      case MarkSuspended => Suspended
      case MarkCompleted => Completed
      case MarkCancelled => Cancelled
      case MarkFailed => Failed
    }

    /** Whether the run manager reads the row first and gives up, and on which statuses. */
    predicate GivesUpOn(status: RunStatus) {
      match this
      case MarkCompleted => status.Terminal()
      case MarkCancelled => status.Terminal()
      case MarkFailed => status.Terminal()
      case MarkSuspended => status.Terminal() || status.Suspended?
      case MarkResumed => !status.Suspended?
      case _ => false
    }
  }

  /**
   * What a marker's first read decides: none goes on for a run that has ended, except the start-up
   * ones, which do not look; a pause goes on only for a run not yet paused, a resumption only for one
   * that is.
   */
  lemma {:induction false} FirstReadSays(m: Mark, status: RunStatus)
    ensures m.GivesUpOn(status) <==>
      || (status in {Completed, Failed, Cancelled} && m !in {MarkStarted, MarkBinding, MarkRunning})
      || (m == MarkSuspended && status == Suspended)
      || (m == MarkResumed && status != Suspended)
  {}

  datatype UpdateResult = Updated | AlreadyThere | Conflict

  /** The columns the conditional UPDATE of `transitionTo` sets. */
  function Written(row: RunRow, m: Mark, now: Time): RunRow {
    RunRow(m.Target(),
        if m.MarkStarted? then Some(now) else row.startedAt,
        if m.Target().Terminal() then Some(now) else row.endedAt)
  }

  /** `RunRepository`, holding one run's row. */
  class RunRepository {
    var row: RunRow

    constructor ()
      ensures row == RunRow(Queued, None, None)
    {
      row := RunRow(Queued, None, None);
    }

    /**
     * `transitionTo`: update the row if its status admits the target; otherwise look again and
     * either report the row as already there or throw, leaving it alone.
     */
    method TransitionTo(m: Mark, now: Time) returns (r: UpdateResult)
      modifies this
      ensures r.Updated? <==> ValidTransition(old(row.status), m.Target())
      ensures row == if r.Updated? then Written(old(row), m, now) else old(row)
      ensures r.Updated? ==>
        && row.status == m.Target()
        && row.startedAt == (if m == MarkStarted then Some(now) else old(row.startedAt))
        && row.endedAt == (if m.Target() in {Completed, Failed, Cancelled} then Some(now) else old(row.endedAt))
      ensures r.AlreadyThere? <==> old(row.status) == m.Target()
    {
      var validFrom := ValidFrom(m.Target());
      if row.status in validFrom {
        row := Written(row, m, now);
        return Updated;
      }
      return if row.status == m.Target() then AlreadyThere else Conflict;
    }
  }

  /** The statuses whose table entry lists the target. */
  method ValidFrom(target: RunStatus) returns (from: set<RunStatus>)
    ensures forall s :: s in from <==> ValidTransition(s, target)
  {
    from := {};
    var all := [Queued, Starting, BindingSession, Running, Suspended, Completed, Failed, Cancelled];
    for i := 0 to |all|
      invariant forall s :: s in from <==> s in all[..i] && ValidTransition(s, target)
    {
      if target in ValidTargets(all[i]) { from := from + {all[i]}; }
    }
    assert all[..|all|] == all;
    forall s: RunStatus ensures s in all { AllStatuses(s); }
  }

  lemma {:induction false} AllStatuses(s: RunStatus)
    ensures s in [Queued, Starting, BindingSession, Running, Suspended, Completed, Failed, Cancelled]
  {
    var all := [Queued, Starting, BindingSession, Running, Suspended, Completed, Failed, Cancelled];
    assert all[0] == Queued && all[1] == Starting && all[2] == BindingSession && all[3] == Running;
    assert all[4] == Suspended && all[5] == Completed && all[6] == Failed && all[7] == Cancelled;
  }

  // ---- Many markers at once -------------------------------------------------------------------

  /** A lifecycle event as logged: the mark that logged it and the row columns it carries. */
  datatype Logged = Logged(mark: Mark, status: RunStatus, endedAt: Option<Time>)

  /** Where a marker is: about to read, about to update, about to look again, about to log what it saw. */
  datatype Phase = Reading | Updating | Rechecking | Logging(row: RunRow)

  datatype Marker = Marker(mark: Mark, phase: Phase)

  datatype System = System(row: RunRow, now: Time, markers: map<nat, Marker>, log: seq<Logged>)

  datatype Action =
    | Tick(now: Time)
    | Begin(id: nat, mark: Mark)
    | Advance(id: nat)
    | Abandon(id: nat)

  ghost predicate Does(s: System, s': System, a: Action) {
    match a
    case Tick(now) => s.now <= now && s' == s.(now := now)
    case Begin(id, mark) => id !in s.markers && s' == s.(markers := s.markers[id := Marker(mark, Reading)])
    // A crash, or the log transaction rolling back, can end a marker at any point.
    case Abandon(id) => id in s.markers && s' == s.(markers := s.markers - {id})
    case Advance(id) => id in s.markers && Advances(s, s', id, s.markers[id])
  }

  ghost predicate Advances(s: System, s': System, id: nat, w: Marker) {
    match w.phase
    case Reading =>
      if w.mark.GivesUpOn(s.row.status) then s' == s.(markers := s.markers - {id})
      else s' == s.(markers := s.markers[id := Marker(w.mark, Updating)])
    case Updating =>
      if ValidTransition(s.row.status, w.mark.Target()) then
        var row := Written(s.row, w.mark, s.now);
        s' == s.(row := row, markers := s.markers[id := Marker(w.mark, Logging(row))])
      else s' == s.(markers := s.markers[id := Marker(w.mark, Rechecking)])
    case Rechecking =>
      if s.row.status == w.mark.Target()
      then s' == s.(markers := s.markers[id := Marker(w.mark, Logging(s.row))])
      else s' == s.(markers := s.markers - {id})
    case Logging(row) =>
      s' == s.(markers := s.markers - {id}, log := s.log + [Logged(w.mark, w.mark.Target(), row.endedAt)])
  }

  ghost predicate Next(s: System, s': System) { exists a: Action :: Does(s, s', a) }

  ghost predicate NextAt(tr: seq<System>, i: nat) { i + 1 < |tr| ==> Next(tr[i], tr[i + 1]) }

  ghost predicate Run(tr: seq<System>) {
    && tr != []
    && tr[0].row == RunRow(Queued, None, None) && tr[0].markers == map[] && tr[0].log == []
    && forall i: nat :: NextAt(tr, i)
  }

  ghost predicate Invariant(s: System) {
    && (s.row.endedAt.Some? <==> s.row.status.Terminal())
    && (s.row.status.Queued? ==> s.row.startedAt.None?)
    && (s.row.status in {Starting, BindingSession, Running, Suspended, Completed} ==> s.row.startedAt.Some?)
    && (forall id :: id in s.markers && s.markers[id].phase.Logging? && s.markers[id].mark.Target().Terminal()
          ==> s.row.status == s.markers[id].mark.Target() && s.markers[id].phase.row.endedAt == s.row.endedAt)
    && (forall i :: 0 <= i < |s.log| && s.log[i].status.Terminal()
          ==> s.row.status == s.log[i].status && s.log[i].endedAt == s.row.endedAt)
  }

  /** What one step may do to the row. */
  ghost predicate RowStep(r: RunRow, r': RunRow) {
    && (r'.status != r.status ==> ValidTransition(r.status, r'.status))
    && (r.status.Terminal() ==> r' == r)
    && (r.endedAt.Some? ==> r'.endedAt == r.endedAt)
    && (r.startedAt.Some? ==> r'.startedAt == r.startedAt)
  }

  lemma {:induction false} UpdateKeeps(s: System, s': System, id: nat)
    requires Invariant(s) && id in s.markers && s.markers[id].phase.Updating? && Advances(s, s', id, s.markers[id])
    ensures Invariant(s') && RowStep(s.row, s'.row)
  {
    var m := s.markers[id].mark;
    if ValidTransition(s.row.status, m.Target()) {
      assert !s.row.status.Terminal();
      assert forall k :: k in s.markers && k != id ==> s'.markers[k] == s.markers[k];
    }
  }

  lemma {:induction false} StepKeeps(s: System, s': System)
    requires Invariant(s) && Next(s, s')
    ensures Invariant(s') && RowStep(s.row, s'.row) && s.log <= s'.log
  {
    var a: Action :| Does(s, s', a);
    if a.Advance? && s.markers[a.id].phase.Updating? {
      UpdateKeeps(s, s', a.id);
    } else {
      assert s'.row == s.row;
    }
  }

  /**
   * Over every interleaving of any number of markers: the row's statuses form a path of valid
   * transitions, a terminal row never changes again, `endedAt` is present exactly on terminal rows
   * and written once, and every terminal lifecycle event ever logged is of the one kind that
   * matches the row and carries its `endedAt`.
   */
  lemma {:induction false} LifecycleSafe(tr: seq<System>)
    requires Run(tr)
    ensures forall i :: 0 <= i < |tr| ==> Invariant(tr[i])
    ensures forall i :: 0 <= i < |tr| - 1 ==> RowStep(tr[i].row, tr[i + 1].row)
  {
    for i := 0 to |tr| - 1
      invariant forall k :: 0 <= k <= i ==> Invariant(tr[k])
      invariant forall k :: 0 <= k < i ==> RowStep(tr[k].row, tr[k + 1].row)
    {
      assert NextAt(tr, i);
      StepKeeps(tr[i], tr[i + 1]);
    }
  }

  /** The status a run has to have had just before it first has this one. */
  function Before(status: RunStatus): Option<RunStatus> {
    match status
    case Starting => Some(Queued)
    case BindingSession => Some(Starting)
    case Running => Some(BindingSession)
    case Suspended => Some(Running)
    case Completed => Some(Running)
    case _ => None
  }

  /**
   * No stage is skipped: whatever the markers and however they interleave, a run that is starting,
   * binding, running, suspended or completed has been through every stage before it, in order.
   */
  lemma {:induction false} NoStageSkipped(tr: seq<System>, j: nat) returns (i: nat)
    requires Run(tr) && j < |tr| && Before(tr[j].row.status).Some?
    ensures i < j && tr[i].row.status == Before(tr[j].row.status).value
    decreases j
  {
    LifecycleSafe(tr);
    assert RowStep(tr[j - 1].row, tr[j - 1 + 1].row);
    TableSays(tr[j - 1].row.status, tr[j].row.status);
    i := j - 1;
    if tr[i].row.status != Before(tr[j].row.status).value {
      if tr[i].row.status == tr[j].row.status {
        i := NoStageSkipped(tr, i);
      } else {
        i := NoStageSkipped(tr, i);
        if tr[i].row.status != Before(tr[j].row.status).value { i := NoStageSkipped(tr, i); }
      }
    }
  }

  /** Terminal is for good: from the first terminal state on, the row is the same for the rest of the run. */
  lemma {:induction false} TerminalAbsorbs(tr: seq<System>, i: nat, j: nat)
    requires Run(tr) && i <= j < |tr| && tr[i].row.status.Terminal()
    ensures tr[j].row == tr[i].row
    decreases j
  {
    if i < j {
      LifecycleSafe(tr);
      TerminalAbsorbs(tr, i, j - 1);
      assert RowStep(tr[j - 1].row, tr[j - 1 + 1].row);
    }
  }

  /** Any two terminal events of a run agree on kind and end time, whoever logged them and however often. */
  lemma {:induction false} OneTerminalKind(tr: seq<System>, i: nat, a: nat, b: nat)
    requires Run(tr) && i < |tr| && a < |tr[i].log| && b < |tr[i].log|
    requires tr[i].log[a].status.Terminal() && tr[i].log[b].status.Terminal()
    ensures tr[i].log[a].status == tr[i].log[b].status == tr[i].row.status
    ensures tr[i].log[a].endedAt == tr[i].log[b].endedAt == tr[i].row.endedAt && tr[i].row.endedAt.Some?
  {
    LifecycleSafe(tr);
  }

  // ---- How often a terminal event is logged ---------------------------------------------------

  predicate IsTerminal(e: Logged) { e.status.Terminal() }

  /** A marker past its first read that is after the status the row has: it may still log it. */
  predicate MayLog(s: System, w: Marker) { w.mark.Target() == s.row.status && !w.phase.Reading? }

  ghost function Contenders(s: System): set<nat> { set id | id in s.markers && MayLog(s, s.markers[id]) }

  function TerminalEvents(s: System): nat { Count(IsTerminal, s.log) }

  lemma {:induction false} OneMoreLogged(log: seq<Logged>, e: Logged)
    ensures Count(IsTerminal, log + [e]) == Count(IsTerminal, log) + if IsTerminal(e) then 1 else 0
  {
    assert (log + [e])[..|log|] == log;
  }

  /** The one kind of step that logs: the contender is used up. */
  lemma {:induction false} LoggingUses(s: System, s': System, id: nat)
    requires Invariant(s) && s.row.status.Terminal() && id in s.markers && s.markers[id].phase.Logging?
    requires Advances(s, s', id, s.markers[id])
    ensures TerminalEvents(s') + |Contenders(s')| <= TerminalEvents(s) + |Contenders(s)|
  {
    var m := s.markers[id].mark;
    OneMoreLogged(s.log, Logged(m, m.Target(), s.markers[id].phase.row.endedAt));
    assert Contenders(s') == Contenders(s) - {id};
  }

  lemma {:induction false} FewerContenders(s: System, s': System)
    requires Contenders(s') <= Contenders(s) && s'.log == s.log
    ensures TerminalEvents(s') + |Contenders(s')| <= TerminalEvents(s) + |Contenders(s)|
  {
    Subset(Contenders(s'), Contenders(s));
  }

  lemma {:induction false} Subset(a: set<nat>, b: set<nat>)
    requires a <= b
    ensures |a| <= |b|
  {
    assert b == a + (b - a);
  }

  /** Once the row is terminal nobody joins the contenders, and each logs at most once. */
  lemma {:induction false} ContendersOnlyLeave(s: System, s': System)
    requires Invariant(s) && Next(s, s') && s.row.status.Terminal()
    ensures TerminalEvents(s') + |Contenders(s')| <= TerminalEvents(s) + |Contenders(s)|
  {
    var a: Action :| Does(s, s', a);
    if a.Advance? && s.markers[a.id].phase.Logging? {
      LoggingUses(s, s', a.id);
    } else {
      assert s'.row == s.row && s'.log == s.log;
      FewerContenders(s, s');
    }
  }

  /** A step that ends the run logs nothing, and nothing terminal was logged before it. */
  lemma {:induction false} EndingStep(s: System, s': System)
    requires Invariant(s) && Next(s, s') && !s.row.status.Terminal() && s'.row.status.Terminal()
    ensures TerminalEvents(s') == 0
  {
    var a: Action :| Does(s, s', a);
    assert s'.log == s.log;
    CountZero(IsTerminal, s.log);
  }

  lemma {:induction false} StepAt(tr: seq<System>, i: nat)
    requires Run(tr) && i + 1 < |tr|
    ensures Invariant(tr[i]) && Next(tr[i], tr[i + 1])
  {
    LifecycleSafe(tr);
    assert NextAt(tr, i);
  }

  /**
   * Terminal events are logged at most as often as there were contenders when the run ended: all of
   * them come from markers already past their first read by then.
   */
  lemma {:induction false} DuplicatesBounded(tr: seq<System>, i: nat, j: nat)
    requires Run(tr) && i + 1 <= j < |tr| && !tr[i].row.status.Terminal() && tr[i + 1].row.status.Terminal()
    ensures TerminalEvents(tr[j]) + |Contenders(tr[j])| <= |Contenders(tr[i + 1])|
    decreases j
  {
    if j == i + 1 {
      StepAt(tr, i);
      EndingStep(tr[i], tr[i + 1]);
    } else {
      DuplicatesBounded(tr, i, j - 1);
      TerminalAbsorbs(tr, i + 1, j - 1);
      StepAt(tr, j - 1);
      ContendersOnlyLeave(tr[j - 1], tr[j]);
    }
  }

  lemma {:induction false} RunAppend(tr: seq<System>, a: Action, s: System)
    requires Run(tr) && Does(tr[|tr| - 1], s, a)
    ensures Run(tr + [s])
  {
    forall i: nat ensures NextAt(tr + [s], i) {
      assert NextAt(tr, i);
    }
  }

  function End(tr: seq<System>): System
    requires tr != []
  {
    tr[|tr| - 1]
  }

  /** A run that goes on from this one, with the same row, as many terminal events and the same contenders. */
  ghost predicate Continues(tr: seq<System>, tr': seq<System>) {
    && Run(tr) && Run(tr') && tr <= tr' && End(tr').row == End(tr).row && End(tr').log == End(tr).log
    && Contenders(End(tr')) == Contenders(End(tr))
  }

  /** A contender moves on, short of logging. */
  lemma {:induction false} Moved(tr: seq<System>, id: nat, phase: Phase) returns (tr': seq<System>)
    requires Run(tr) && id in Contenders(End(tr)) && !phase.Reading?
    requires var s := End(tr); Does(s, s.(markers := s.markers[id := Marker(s.markers[id].mark, phase)]), Advance(id))
    ensures Continues(tr, tr') && id in End(tr').markers && End(tr').markers[id].phase == phase
  {
    var s := End(tr);
    var s' := s.(markers := s.markers[id := Marker(s.markers[id].mark, phase)]);
    RunAppend(tr, Advance(id), s');
    tr' := tr + [s'];
  }

  /** On a terminal row an update finds nothing to do, and the second look finds the row already there. */
  lemma {:induction false} ReadyToLog(tr: seq<System>, id: nat) returns (tr': seq<System>)
    requires Run(tr) && End(tr).row.status.Terminal() && id in Contenders(End(tr))
    ensures Continues(tr, tr') && id in End(tr').markers && End(tr').markers[id].phase.Logging?
  {
    tr' := tr;
    if End(tr).markers[id].phase.Updating? {
      tr' := Moved(tr, id, Rechecking);
    }
    if End(tr').markers[id].phase.Rechecking? {
      tr' := Moved(tr', id, Logging(End(tr').row));
    }
  }

  /** Any one contender can be driven to its log. */
  lemma {:induction false} OneLogs(tr: seq<System>, id: nat) returns (tr': seq<System>)
    requires Run(tr) && End(tr).row.status.Terminal() && id in Contenders(End(tr))
    ensures Run(tr') && tr <= tr' && End(tr').row == End(tr).row
    ensures TerminalEvents(End(tr')) == TerminalEvents(End(tr)) + 1
      && Contenders(End(tr')) == Contenders(End(tr)) - {id}
  {
    var ready := ReadyToLog(tr, id);
    var s := End(ready);
    var e := Logged(s.markers[id].mark, s.markers[id].mark.Target(), s.markers[id].phase.row.endedAt);
    var s' := s.(markers := s.markers - {id}, log := s.log + [e]);
    assert Does(s, s', Advance(id));
    RunAppend(ready, Advance(id), s');
    OneMoreLogged(s.log, e);
    tr' := ready + [s'];
  }

  /** And so can any number of them, one after another. */
  lemma {:induction false} ManyLog(tr: seq<System>, n: nat) returns (tr': seq<System>)
    requires Run(tr) && End(tr).row.status.Terminal() && n <= |Contenders(End(tr))|
    ensures Run(tr') && tr <= tr' && TerminalEvents(End(tr')) == TerminalEvents(End(tr)) + n
    decreases n
  {
    tr' := tr;
    if n > 0 {
      var id :| id in Contenders(End(tr));
      var once := OneLogs(tr, id);
      tr' := ManyLog(once, n - 1);
    }
  }

  /** The step that ends a run has just been taken. */
  ghost predicate JustEnded(tr: seq<System>) {
    Run(tr) && |tr| >= 2 && !tr[|tr| - 2].row.status.Terminal() && End(tr).row.status.Terminal()
  }

  /** Some way the run can go on logs its terminal event n times. */
  ghost predicate CanLog(tr: seq<System>, n: nat) {
    exists tr': seq<System> :: tr <= tr' && Run(tr') && TerminalEvents(End(tr')) == n
  }

  lemma {:induction false} NeverMore(tr: seq<System>, tr': seq<System>)
    requires JustEnded(tr) && tr <= tr' && Run(tr')
    ensures TerminalEvents(End(tr')) <= |Contenders(End(tr))|
  {
    var i := |tr| - 2;
    assert tr'[i] == tr[i] && tr'[i + 1] == tr[i + 1];
    DuplicatesBounded(tr', i, |tr'| - 1);
  }

  /**
   * How often a terminal event is logged, exactly: from the step that ends the run, it can be
   * logged n times if and only if there are then at least n markers for that status past their
   * first read.
   */
  lemma {:induction false} CanLogIff(tr: seq<System>, n: nat)
    requires JustEnded(tr)
    ensures CanLog(tr, n) <==> n <= |Contenders(End(tr))|
  {
    if CanLog(tr, n) {
      var tr': seq<System> :| tr <= tr' && Run(tr') && TerminalEvents(End(tr')) == n;
      NeverMore(tr, tr');
    }
    if n <= |Contenders(End(tr))| {
      StepAt(tr, |tr| - 2);
      EndingStep(tr[|tr| - 2], End(tr));
      var tr' := ManyLog(tr, n);
      assert tr <= tr' && Run(tr') && TerminalEvents(End(tr')) == n;
    }
  }

  /** So it is logged at most once, however the run goes on, exactly when at most one such marker is left. */
  lemma {:induction false} LogsOnceIff(tr: seq<System>)
    requires JustEnded(tr)
    ensures (forall tr': seq<System> :: tr <= tr' && Run(tr') ==> TerminalEvents(End(tr')) <= 1) <==> |Contenders(End(tr))| <= 1
  {
    if |Contenders(End(tr))| <= 1 {
      forall tr': seq<System> | tr <= tr' && Run(tr') ensures TerminalEvents(End(tr')) <= 1 {
        NeverMore(tr, tr');
      }
    } else {
      CanLogIff(tr, 2);
    }
  }

  /** Two failing markers in these phases, over a row. */
  function Two(row: RunRow, now: Time, a: Phase, b: Phase): System {
    System(row, now, map[0 := Marker(MarkFailed, a), 1 := Marker(MarkFailed, b)], [])
  }

  /** Both have read the queued row. */
  lemma {:induction false} BothRead(now: Time) returns (tr: seq<System>)
    ensures Run(tr) && tr[|tr| - 1] == Two(RunRow(Queued, None, None), now, Updating, Updating)
  {
    var row := RunRow(Queued, None, None);
    var s0 := System(row, now, map[], []);
    var s1 := s0.(markers := map[0 := Marker(MarkFailed, Reading)]);
    assert Does(s0, s1, Begin(0, MarkFailed));
    var s2 := Two(row, now, Reading, Reading);
    assert s2.markers == s1.markers[1 := Marker(MarkFailed, Reading)] && Does(s1, s2, Begin(1, MarkFailed));
    var s3 := Two(row, now, Updating, Reading);
    assert s3.markers == s2.markers[0 := Marker(MarkFailed, Updating)] && Does(s2, s3, Advance(0));
    var s4 := Two(row, now, Updating, Updating);
    assert s4.markers == s3.markers[1 := Marker(MarkFailed, Updating)] && Does(s3, s4, Advance(1));
    tr := [s0, s1, s2, s3, s4];
  }

  /** One of them wins the update; the other finds the row already there and prepares to log too. */
  lemma {:induction false} BothToLog(now: Time) returns (tr: seq<System>)
    ensures Run(tr)
    ensures var row := Written(RunRow(Queued, None, None), MarkFailed, now); tr[|tr| - 1] == Two(row, now, Logging(row), Logging(row))
  {
    tr := BothRead(now);
    var s := tr[|tr| - 1];
    var row := Written(s.row, MarkFailed, now);
    var s1 := Two(row, now, Logging(row), Updating);
    assert s1.markers == s.markers[0 := Marker(MarkFailed, Logging(row))] && Does(s, s1, Advance(0));
    RunAppend(tr, Advance(0), s1);
    var s2 := Two(row, now, Logging(row), Rechecking);
    assert s2.markers == s1.markers[1 := Marker(MarkFailed, Rechecking)] && Does(s1, s2, Advance(1));
    RunAppend(tr + [s1], Advance(1), s2);
    var s3 := Two(row, now, Logging(row), Logging(row));
    assert s3.markers == s2.markers[1 := Marker(MarkFailed, Logging(row))] && Does(s2, s3, Advance(1));
    RunAppend(tr + [s1] + [s2], Advance(1), s3);
    tr := tr + [s1] + [s2] + [s3];
  }

  /** The bound is reached: a run from the start in which two markers of one kind both log it. */
  lemma {:induction false} DuplicateTerminalEvents(now: Time) returns (tr: seq<System>)
    ensures Run(tr) && var log := tr[|tr| - 1].log; |log| == 2 && log[0] == log[1] && log[0].status == Failed
  {
    tr := BothToLog(now);
    var s := tr[|tr| - 1];
    var e := Logged(MarkFailed, Failed, Some(now));
    var s1 := s.(markers := s.markers - {0}, log := [e]);
    assert [] + [e] == [e] && Does(s, s1, Advance(0));
    RunAppend(tr, Advance(0), s1);
    var s2 := s1.(markers := s1.markers - {1}, log := [e, e]);
    assert [e] + [e] == [e, e] && Does(s1, s2, Advance(1));
    RunAppend(tr + [s1], Advance(1), s2);
    tr := tr + [s1] + [s2];
  }
}
