/**
 * What the projected run is, read off the log: nothing here looks at the reducer's own step, only at
 * what each event says.
 */
module RunLaws {
  import opened Prelude
  import opened Events
  import opened Projection
  import opened Batching

  /** The status an event names outright. */
  function Names(e: Event): Option<RunStatus> {
    match e.kind
    case RunCreated | RunStarted | RunCompleted | RunFailed | RunCancelled | RunSuspended | RunResumed => e.data.status
    case SessionBound | SessionStateChanged =>
      (match e.data.state
       case Some(StateResolved) => Some(RunStatus.Completed)
       case Some(StateExpired) => Some(RunStatus.Failed)
       case Some(StateCancelled) => Some(RunStatus.Cancelled)
       case _ => None)
    case DecisionFinalized => Some(RunStatus.Completed)
    case _ => None
  }

  /** A session event in this state: it pauses or reopens the run rather than naming a status. */
  predicate Shows(e: Event, state: SessionState) {
    (e.kind.SessionBound? || e.kind.SessionStateChanged?) && e.data.state == Some(state)
  }

  predicate Pauses(e: Event) { Shows(e, StateSuspended) }
  predicate Reopens(e: Event) { Shows(e, StateOpen) }
  predicate Turns(e: Event) { Pauses(e) || Reopens(e) }
  predicate NamesOne(e: Event) { Names(e).Some? }

  /** Index of the last element that satisfies `p`. */
  function LastWhere<T>(p: T -> bool, s: seq<T>): (r: Option<nat>)
    ensures r.Some? ==> r.value < |s| && p(s[r.value])
    ensures forall j :: (if r.Some? then r.value + 1 else 0) <= j < |s| ==> !p(s[j])
    decreases |s|
  {
    if s == [] then None else if p(s[|s| - 1]) then Some(|s| - 1) else LastWhere(p, s[..|s| - 1])
  }

  ghost predicate PausedIn(es: seq<Event>) { exists k :: 0 <= k < |es| && Pauses(es[k]) }

  /**
   * The status `named` last, as the events since turn it: unless it is terminal, a run whose session was
   * last seen suspended is suspended, and one whose session was last seen open after having been
   * suspended is running.
   */
  ghost function Turned(named: RunStatus, since: seq<Event>): RunStatus {
    var turn := LastWhere(Turns, since);
    if named.Terminal() || turn.None? then named
    else if Pauses(since[turn.value]) then RunStatus.Suspended
    else if named.Suspended? || PausedIn(since[..turn.value]) then RunStatus.Running
    else named
  }

  /** Where the part of the log after the last named status begins, and that status. */
  function SinceNamed(es: seq<Event>): (from: nat)
    ensures from <= |es|
  {
    var k := LastWhere(NamesOne, es);
    if k.Some? then k.value + 1 else 0
  }

  function LastNamed(es: seq<Event>): RunStatus {
    var k := LastWhere(NamesOne, es);
    if k.Some? then Names(es[k.value]).value else RunStatus.Queued
  }

  /** The status a log leaves its run in. */
  ghost function StatusRead(es: seq<Event>): RunStatus { Turned(LastNamed(es), es[SinceNamed(es)..]) }

  function RunOf(runId: string, es: seq<Event>): RunSummary { Foldl(RunStepper(runId), Empty(runId).cols.run, es) }

  lemma {:induction false} StatusStep(base: string, r: RunSummary, e: Event)
    ensures var status := StepRun(base, r, e).status;
      && (NamesOne(e) ==> status == Names(e).value)
      && (!NamesOne(e) ==> status == TurnOnce(r.status, e))
  {}

  /** What one turn of the session makes of a status. */
  function TurnOnce(status: RunStatus, e: Event): RunStatus {
    if Pauses(e) && !status.Terminal() then RunStatus.Suspended
    else if Reopens(e) && status.Suspended? then RunStatus.Running
    else status
  }

  lemma {:induction false} OneMoreTurn(named: RunStatus, since: seq<Event>)
    requires since != []
    ensures Turned(named, since) == TurnOnce(Turned(named, since[..|since| - 1]), since[|since| - 1])
  {
    var was := since[..|since| - 1];
    var turn := LastWhere(Turns, was);
    TurnedAgain(was, turn);
    if turn.Some? { assert was[..turn.value] == since[..turn.value]; }
  }

  /** Pauses are turns, so a pause before the end is the last turn or before it. */
  lemma {:induction false} TurnedAgain(es: seq<Event>, turn: Option<nat>)
    requires turn == LastWhere(Turns, es)
    ensures PausedIn(es) <==> turn.Some? && (Pauses(es[turn.value]) || PausedIn(es[..turn.value]))
  {
    if PausedIn(es) {
      var k :| 0 <= k < |es| && Pauses(es[k]);
      assert Turns(es[k]);
      if k < turn.value { assert es[..turn.value][k] == es[k]; }
    }
    if turn.Some? && PausedIn(es[..turn.value]) {
      var k :| 0 <= k < turn.value && Pauses(es[..turn.value][k]);
      assert Pauses(es[k]);
    }
  }

  /** The status of a run, read off its log. */
  lemma {:induction false} StatusOfTheLog(runId: string, es: seq<Event>)
    ensures RunOf(runId, es).status == StatusRead(es)
    decreases |es|
  {
    if es != [] {
      var n := |es| - 1;
      StatusOfTheLog(runId, es[..n]);
      StatusStep(runId, RunOf(runId, es[..n]), es[n]);
      ReadOn(es);
    }
  }

  /** What the next event makes of the status read so far. */
  lemma {:induction false} ReadOn(es: seq<Event>)
    requires es != []
    ensures var e := es[|es| - 1];
      StatusRead(es) == if NamesOne(e) then Names(e).value else TurnOnce(StatusRead(es[..|es| - 1]), e)
  {
    var n := |es| - 1;
    if NamesOne(es[n]) {
      NamedLast(es);
    } else {
      NamedBefore(es);
      OneMoreTurn(LastNamed(es), es[SinceNamed(es)..]);
    }
  }

  lemma {:induction false} NamedLast(es: seq<Event>)
    requires es != [] && NamesOne(es[|es| - 1])
    ensures LastNamed(es) == Names(es[|es| - 1]).value && es[SinceNamed(es)..] == []
    ensures Turned(LastNamed(es), []) == LastNamed(es)
  {}

  lemma {:induction false} NamedBefore(es: seq<Event>)
    requires es != [] && !NamesOne(es[|es| - 1])
    ensures var n, since := |es| - 1, es[SinceNamed(es)..];
      && LastNamed(es) == LastNamed(es[..n])
      && since != [] && since[|since| - 1] == es[n] && since[..|since| - 1] == es[..n][SinceNamed(es[..n])..]
  {
    var n, from := |es| - 1, SinceNamed(es[..|es| - 1]);
    assert SinceNamed(es) == from;
    assert es[from..][..n - from] == es[..n][from..];
  }

  // ---- The other fields -----------------------------------------------------------------------

  /** The last value that is present. */
  function Latest<T>(f: Event -> Option<T>, es: seq<Event>): Option<T>
    decreases |es|
  {
    if es == [] then None else f(es[|es| - 1]).OrElse(Latest(f, es[..|es| - 1]))
  }

  predicate IsLifecycle(e: Event) {
    e.kind in {RunCreated, RunStarted, RunCompleted, RunFailed, RunCancelled}
  }

  predicate IsPause(e: Event) { e.kind in {RunSuspended, RunResumed} }
  predicate IsSession(e: Event) { e.kind in {SessionBound, SessionStateChanged} }
  predicate IsGap(e: Event) { e.kind == SessionStreamGap }

  function StartedAt(e: Event): Option<Time> { if IsLifecycle(e) then e.data.startedAt else None }
  function EndedAt(e: Event): Option<Time> { if IsLifecycle(e) then e.data.endedAt else None }
  function ModeName(e: Event): Option<string> { if IsLifecycle(e) then e.data.modeName else None }
  function TraceNamed(e: Event): Option<string> { if IsLifecycle(e) || IsPause(e) then e.data.traceId else None }
  function ContextId(e: Event): Option<string> { if IsSession(e) then e.data.contextId else None }
  function Extensions(e: Event): Option<seq<string>> { if IsSession(e) then e.data.extensionKeys else None }

  function SessionId(e: Event): Option<string> {
    if IsLifecycle(e) || IsPause(e) then e.data.runtimeSessionId else if IsSession(e) then e.data.sessionId else None
  }

  /** The suspension limit a SessionStart sets; one that is not positive sets none. */
  function MaxSuspend(e: Event): Option<real> {
    if e.kind != MessageReceived || e.data.messageType != Some(SessionStart) then None
    else match e.data.decodedPayload.OrElse(e.data.payload)
      case Some(p) => if p.maxSuspendMs.Some? && p.maxSuspendMs.value > 0.0 then p.maxSuspendMs else None
      case None => None
  }

  lemma {:induction false} RunStepFields(base: string, r: RunSummary, e: Event)
    requires base != "" && r.runId == base
    ensures var r' := StepRun(base, r, e);
      && r'.runId == base
      && r'.startedAt == StartedAt(e).OrElse(r.startedAt) && r'.endedAt == EndedAt(e).OrElse(r.endedAt)
      && r'.modeName == ModeName(e).OrElse(r.modeName) && r'.traceId == TraceNamed(e).OrElse(r.traceId)
      && r'.runtimeSessionId == SessionId(e).OrElse(r.runtimeSessionId)
      && r'.contextId == ContextId(e).OrElse(r.contextId)
      && r'.extensionKeys == Extensions(e).OrElse(r.extensionKeys)
      && r'.maxSuspendMs == MaxSuspend(e).OrElse(r.maxSuspendMs)
      && r'.historyGap == (r.historyGap || IsGap(e))
  {}

  /**
   * Everything the run summary says, read off the log: the status as above, every other field the
   * latest value an event of the right kind named, the gap flag set exactly when the log records a
   * gap, and the run's own id throughout.
   */
  ghost predicate RunReads(runId: string, es: seq<Event>, r: RunSummary) {
    && r.runId == runId
    && r.status == StatusRead(es)
    && r.startedAt == Latest(StartedAt, es) && r.endedAt == Latest(EndedAt, es)
    && r.modeName == Latest(ModeName, es) && r.traceId == Latest(TraceNamed, es)
    && r.runtimeSessionId == Latest(SessionId, es) && r.contextId == Latest(ContextId, es)
    && r.extensionKeys == Latest(Extensions, es) && r.maxSuspendMs == Latest(MaxSuspend, es)
    && (r.historyGap <==> Count(IsGap, es) > 0)
  }

  lemma {:induction false} FieldsOfTheLog(runId: string, es: seq<Event>)
    requires runId != ""
    ensures var r := RunOf(runId, es);
      && r.runId == runId
      && r.startedAt == Latest(StartedAt, es) && r.endedAt == Latest(EndedAt, es)
      && r.modeName == Latest(ModeName, es) && r.traceId == Latest(TraceNamed, es)
      && r.runtimeSessionId == Latest(SessionId, es) && r.contextId == Latest(ContextId, es)
      && r.extensionKeys == Latest(Extensions, es) && r.maxSuspendMs == Latest(MaxSuspend, es)
      && (r.historyGap <==> Count(IsGap, es) > 0)
    decreases |es|
  {
    if es != [] {
      var n := |es| - 1;
      FieldsOfTheLog(runId, es[..n]);
      RunStepFields(runId, RunOf(runId, es[..n]), es[n]);
    }
  }

  /** The run column of a run's projection says exactly that. */
  lemma {:induction false} RunOfTheLog(runId: string, es: seq<Event>)
    requires runId != ""
    ensures RunReads(runId, es, Apply(Empty(runId), es).cols.run)
  {
    RunColumn(runId, Empty(runId), es);
    StatusOfTheLog(runId, es);
    FieldsOfTheLog(runId, es);
  }
}
