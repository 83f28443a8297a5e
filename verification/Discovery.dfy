/**
 * `SessionDiscoveryService`: a watch stream that may lose lifecycle events, repaired by the
 * snapshots every reconnect opens with.
 */
module Discovery {
  import opened Prelude
  import opened Events
  import opened Lifecycle
  import ConsumeLoop

  datatype LifecycleEvent = SessionSuspended | SessionResumed | SessionResolved | SessionExpired | SessionCancelled

  /** What the runtime's session does on each event, and which events can occur in a state. */
  predicate Possible(state: SessionState, ev: LifecycleEvent) {
    match state
    case StateOpen => !ev.SessionResumed?
    case StateSuspended => !ev.SessionSuspended?
    case _ => false
  }

  function After(ev: LifecycleEvent): SessionState {
    match ev
    case SessionSuspended => StateSuspended
    case SessionResumed => StateOpen
    case SessionResolved => StateResolved
    case SessionExpired => StateExpired
    case SessionCancelled => StateCancelled
  }

  /** The status that says the same about a run as the state says about its session. */
  function StatusOf(state: SessionState): RunStatus
    requires !state.StateUnspecified?
  {
    match state
    case StateOpen => Running
    case StateSuspended => Suspended
    case StateResolved => Completed
    case StateExpired => Failed
    case StateCancelled => Cancelled
  }

  function MarkFor(ev: LifecycleEvent): Mark {
    match ev
    case SessionSuspended => MarkSuspended
    case SessionResumed => MarkResumed
    case SessionResolved => MarkCompleted
    case SessionExpired => MarkFailed
    case SessionCancelled => MarkCancelled
  }

  /** A marker run to its end with no other writer: a no-op, the transition, or a conflict that changes nothing. */
  function Marked(status: RunStatus, m: Mark): RunStatus {
    if !m.GivesUpOn(status) && ValidTransition(status, m.Target()) then m.Target() else status
  }

  predicate Conflicts(status: RunStatus, m: Mark) {
    !m.GivesUpOn(status) && !ValidTransition(status, m.Target()) && status != m.Target()
  }

  /** `handleSessionTerminal` and `handleSessionPaused`. */
  function OnLifecycle(status: RunStatus, ev: LifecycleEvent): RunStatus {
    if status.Terminal() then status else Marked(status, MarkFor(ev))
  }

  /** `reconcileFromSnapshot`: only runs this service drives; a conflict is logged, not thrown. */
  function OnSnapshot(status: RunStatus, state: SessionState): RunStatus {
    if !status.Running? && !status.Suspended? then status
    else match state
      case StateResolved => OnLifecycle(status, SessionResolved)
      case StateExpired => OnLifecycle(status, SessionExpired)
      case StateCancelled => OnLifecycle(status, SessionCancelled)
      case StateSuspended => if status.Running? then OnLifecycle(status, SessionSuspended) else status
      case StateOpen => if status.Suspended? then OnLifecycle(status, SessionResumed) else status
      case StateUnspecified => status
  }

  // ---- A lossy watch --------------------------------------------------------------------------

  /** What the watch makes of one moment: an event arrives, an event is lost, or a sync snapshot arrives. */
  datatype Observation = Delivered(ev: LifecycleEvent) | Dropped(ev: LifecycleEvent) | Synced

  ghost predicate Plausible(state: SessionState, obs: seq<Observation>)
    decreases |obs|
  {
    obs != [] ==>
      && Plausible(state, obs[..|obs| - 1])
      && (!obs[|obs| - 1].Synced? ==> Possible(SessionAfter(state, obs[..|obs| - 1]), obs[|obs| - 1].ev))
  }

  function SessionAfter(state: SessionState, obs: seq<Observation>): SessionState
    decreases |obs|
  {
    if obs == [] then state
    else if obs[|obs| - 1].Synced? then SessionAfter(state, obs[..|obs| - 1])
    else After(obs[|obs| - 1].ev)
  }

  /** The run's status after this much of the watch. */
  function RunAfter(status: RunStatus, state: SessionState, obs: seq<Observation>): RunStatus
    decreases |obs|
  {
    if obs == [] then status
    else
      var before := RunAfter(status, state, obs[..|obs| - 1]);
      match obs[|obs| - 1]
      case Delivered(ev) => OnLifecycle(before, ev)
      case Dropped(_) => before
      case Synced => OnSnapshot(before, SessionAfter(state, obs[..|obs| - 1]))
  }

  /** The same moments with nothing lost. */
  function Lossless(obs: seq<Observation>): (r: seq<Observation>)
    ensures |r| == |obs|
    ensures forall i :: 0 <= i < |obs| ==> r[i] == if obs[i].Dropped? then Delivered(obs[i].ev) else obs[i]
  {
    seq(|obs|, i requires 0 <= i < |obs| => if obs[i].Dropped? then Delivered(obs[i].ev) else obs[i])
  }

  predicate Ended(state: SessionState) { state.StateResolved? || state.StateExpired? || state.StateCancelled? }

  /** However much was lost, the run is either still being driven or rightly at its session's end. */
  ghost predicate NotAstray(status: RunStatus, state: SessionState) {
    && !state.StateUnspecified?
    && (status.Running? || status.Suspended? || (Ended(state) && status == StatusOf(state)))
  }

  /** In step before a delivered event, in step after it; and no event leads astray. */
  lemma {:induction false} EventTracks(state: SessionState, ev: LifecycleEvent)
    requires Possible(state, ev)
    ensures OnLifecycle(StatusOf(state), ev) == StatusOf(After(ev))
  {}

  lemma {:induction false} EventNotAstray(status: RunStatus, state: SessionState, ev: LifecycleEvent)
    requires NotAstray(status, state) && Possible(state, ev)
    ensures NotAstray(OnLifecycle(status, ev), After(ev)) && NotAstray(status, After(ev))
  {}

  lemma {:induction false} SnapshotRepairs(status: RunStatus, state: SessionState)
    requires NotAstray(status, state)
    ensures OnSnapshot(status, state) == StatusOf(state)
    ensures OnSnapshot(OnSnapshot(status, state), state) == OnSnapshot(status, state)
  {}

  lemma {:induction false} NeverAstray(status: RunStatus, state: SessionState, obs: seq<Observation>)
    requires NotAstray(status, state) && Plausible(state, obs)
    ensures NotAstray(RunAfter(status, state, obs), SessionAfter(state, obs))
    decreases |obs|
  {
    if obs != [] {
      var prefix, last := obs[..|obs| - 1], obs[|obs| - 1];
      NeverAstray(status, state, prefix);
      if last.Synced? {
        SnapshotRepairs(RunAfter(status, state, prefix), SessionAfter(state, prefix));
      } else {
        EventNotAstray(RunAfter(status, state, prefix), SessionAfter(state, prefix), last.ev);
      }
    }
  }

  lemma {:induction false} LosslessSame(state: SessionState, obs: seq<Observation>)
    ensures SessionAfter(state, Lossless(obs)) == SessionAfter(state, obs)
    ensures Plausible(state, obs) ==> Plausible(state, Lossless(obs))
    decreases |obs|
  {
    if obs != [] {
      var n := |obs| - 1;
      LosslessSame(state, obs[..n]);
      assert Lossless(obs)[..n] == Lossless(obs[..n]);
    }
  }

  lemma {:induction false} LosslessTracks(state: SessionState, obs: seq<Observation>)
    requires !state.StateUnspecified? && Plausible(state, obs) && forall i :: 0 <= i < |obs| ==> !obs[i].Dropped?
    ensures !SessionAfter(state, obs).StateUnspecified?
    ensures RunAfter(StatusOf(state), state, obs) == StatusOf(SessionAfter(state, obs))
    decreases |obs|
  {
    if obs != [] {
      var prefix, last := obs[..|obs| - 1], obs[|obs| - 1];
      LosslessTracks(state, prefix);
      if last.Synced? {
        SnapshotRepairs(StatusOf(SessionAfter(state, prefix)), SessionAfter(state, prefix));
      } else {
        EventTracks(SessionAfter(state, prefix), last.ev);
      }
    }
  }

  /**
   * A lossy watch converges: whichever lifecycle events were lost, and whatever syncs came in
   * between, one more snapshot leaves a driven run in the status that says what its session's
   * state says (wherever it started), which for a run that started in step is the status a watch
   * that lost nothing would have given it; processing that snapshot again changes nothing.
   */
  lemma {:induction false} LossyWatchConverges(status: RunStatus, state: SessionState, obs: seq<Observation>)
    requires NotAstray(status, state) && Plausible(state, obs)
    ensures var lossy := RunAfter(status, state, obs);
            var now := SessionAfter(state, obs);
            && !now.StateUnspecified?
            && OnSnapshot(lossy, now) == StatusOf(now)
            && (status == StatusOf(state) ==> OnSnapshot(lossy, now) == RunAfter(status, state, Lossless(obs)))
            && OnSnapshot(OnSnapshot(lossy, now), now) == OnSnapshot(lossy, now)
  {
    NeverAstray(status, state, obs);
    SnapshotRepairs(RunAfter(status, state, obs), SessionAfter(state, obs));
    if status == StatusOf(state) {
      LosslessSame(state, obs);
      LosslessTracks(state, Lossless(obs));
    }
  }

  // ---- The service over many sessions ---------------------------------------------------------

  datatype WatchEvent = Listed(sessionId: string, state: SessionState) | Changed(sessionId: string, ev: LifecycleEvent)

  /** What the service holds about one session: its run's status, if a run exists, and whether it has seen it. */
  datatype Tracked = Tracked(run: Option<RunStatus>, known: bool)

  /**
   * A run created for an unseen session: queued, then started, bound and marked running, whatever the
   * session's state.
   */
  function Created(): RunStatus { Marked(Marked(Marked(Queued, MarkStarted), MarkBinding), MarkRunning) }

  /** `handleSessionCreated`: an existing run is reconciled; an unseen session gets a run. */
  function OnCreated(t: Tracked, state: SessionState): Tracked {
    if t.run.Some? then Tracked(Some(OnSnapshot(t.run.value, state)), true)
    else if t.known then t
    else Tracked(Some(Created()), true)
  }

  /**
   * What the stream consumer the same handler starts makes of the run: `fin` is the mark it finalizes
   * with, if it does.
   */
  function Consumed(status: RunStatus, fin: Option<Mark>): RunStatus {
    if fin.None? then status else Marked(status, fin.value)
  }

  function OnWatch(t: Tracked, w: WatchEvent): Tracked {
    match w
    case Listed(_, state) => OnCreated(t, state)
    case Changed(_, ev) => if t.run.Some? then t.(run := Some(OnLifecycle(t.run.value, ev))) else t
  }

  /** What a consumer can finalize with: a terminal mark. */
  predicate Ends(m: Mark) { m.MarkCompleted? || m.MarkFailed? || m.MarkCancelled? }

  /**
   * A session first met through a snapshot gets a run marked running whatever its state.  With the
   * consumer the handler starts, its status is right exactly when the consumer has finalized it the
   * session's way, or has not finalized it and the session is open; and a second snapshot puts it
   * right unless the consumer has finalized it otherwise.
   */
  lemma {:induction false} FirstSnapshotRightIff(state: SessionState, fin: Option<Mark>)
    requires !state.StateUnspecified? && (fin.Some? ==> Ends(fin.value))
    ensures var once := OnCreated(Tracked(None, false), state);
      var run := Consumed(once.run.value, fin);
      && once.run.Some?
      && (run == StatusOf(state) <==> if fin.Some? then fin.value.Target() == StatusOf(state) else state.StateOpen?)
      && (OnCreated(once.(run := Some(run)), state).run == Some(StatusOf(state))
          <==> fin.None? || fin.value.Target() == StatusOf(state))
  {
    assert Created() == Running;
    SnapshotRepairs(Running, state);
  }

  /** Every terminal state the consumer is shown is the session's. */
  ghost predicate Shows(env: ConsumeLoop.Environment, state: SessionState)
    requires !state.StateUnspecified?
  {
    forall m: Mark :: ConsumeLoop.ReportedBy(env, m) ==> Ends(m) && Ended(state) && m.Target() == StatusOf(state)
  }

  /**
   * A consumer that is shown nothing but its session's own state finalizes the run rightly, or as
   * failed because it gave up (`ConsumeLoop.Start`: its polls ran out, or an error escaped).  So after
   * a second snapshot the run is right exactly when the consumer did not give up, or the session had
   * expired anyway.
   */
  lemma {:induction false} RightUnlessTheConsumerGaveUp(env: ConsumeLoop.Environment, state: SessionState,
      fin: Option<Mark>)
    requires !state.StateUnspecified? && Shows(env, state)
    requires ConsumeLoop.AsReported(env, None, fin) || fin == Some(MarkFailed)
    ensures var once := OnCreated(Tracked(None, false), state);
      OnCreated(once.(run := Some(Consumed(once.run.value, fin))), state).run == Some(StatusOf(state))
      <==> ConsumeLoop.AsReported(env, None, fin) || state.StateExpired?
  {
    FirstSnapshotRightIff(state, fin);
  }

  function Lookup(m: map<string, Tracked>, id: string): Tracked { if id in m then m[id] else Tracked(None, false) }

  /** Every session's events, in order, and nobody else's. */
  function Watched(t: Tracked, id: string, ws: seq<WatchEvent>): Tracked
    decreases |ws|
  {
    if ws == [] then t
    else
      var before := Watched(t, id, ws[..|ws| - 1]);
      var w := ws[|ws| - 1];
      if w.sessionId == id then OnWatch(before, w) else before
  }

  // ---- What a handled watch does to one run ---------------------------------------------------

  /** The part of a watch that is about one session. */
  function About(id: string, ws: seq<WatchEvent>): seq<WatchEvent> { Filter((w: WatchEvent) => w.sessionId == id, ws) }

  /** What the watch delivers of these moments of a session that starts in `state`; a dropped event is not delivered. */
  function Heard(id: string, state: SessionState, obs: seq<Observation>): seq<WatchEvent>
    decreases |obs|
  {
    if obs == [] then []
    else
      var rest, o := obs[..|obs| - 1], obs[|obs| - 1];
      Heard(id, state, rest) +
      match o
      case Delivered(ev) => [Changed(id, ev)]
      case Dropped(_) => []
      case Synced => [Listed(id, SessionAfter(state, rest))]
  }

  lemma {:induction false} WatchOne(t: Tracked, id: string, ws: seq<WatchEvent>, w: WatchEvent)
    requires w.sessionId == id
    ensures Watched(t, id, ws + [w]) == OnWatch(Watched(t, id, ws), w)
  {
    assert (ws + [w])[..|ws|] == ws;
  }

  /** Handling the watch events of a session is what the model of a lossy watch says of its run. */
  lemma {:induction false} WatchIsRun(t: Tracked, id: string, state: SessionState, obs: seq<Observation>)
    requires t.run.Some?
    ensures Watched(t, id, Heard(id, state, obs)).run == Some(RunAfter(t.run.value, state, obs))
    decreases |obs|
  {
    if obs != [] {
      var rest, o := obs[..|obs| - 1], obs[|obs| - 1];
      var ws := Heard(id, state, rest);
      WatchIsRun(t, id, state, rest);
      match o
      case Delivered(ev) => WatchOne(t, id, ws, Changed(id, ev));
      case Dropped(_) => assert Heard(id, state, obs) == ws;
      case Synced => WatchOne(t, id, ws, Listed(id, SessionAfter(state, rest)));
    }
  }

  lemma {:induction false} WatchedIsAbout(t: Tracked, id: string, ws: seq<WatchEvent>)
    ensures Watched(t, id, ws) == Watched(t, id, About(id, ws))
    decreases |ws|
  {
    if ws != [] {
      var n := |ws| - 1;
      WatchedIsAbout(t, id, ws[..n]);
      var rest := About(id, ws[..n]);
      if ws[n].sessionId == id {
        assert (rest + [ws[n]])[..|rest|] == rest;
      } else {
        assert rest + [] == rest;
      }
    }
  }

  /** In step with its session: the run's status says what the session's state says. */
  ghost predicate InStep(run: Option<RunStatus>, state: SessionState) {
    !state.StateUnspecified? && run == Some(StatusOf(state))
  }

  /**
   * A run that was driven, or rightly ended, when its session was in `state`, has been told of these
   * moments of the session.  It is driven or rightly ended; and it is in step with the session if the
   * last it was told is a snapshot, or if it was in step before and told everything.
   */
  ghost predicate Follows(before: RunStatus, state: SessionState, obs: seq<Observation>, after: Option<RunStatus>) {
    NotAstray(before, state) && Plausible(state, obs) ==>
      && after.Some? && NotAstray(after.value, SessionAfter(state, obs))
      && ((obs != [] && obs[|obs| - 1].Synced?) || (before == StatusOf(state) && NothingDropped(obs))
          ==> InStep(after, SessionAfter(state, obs)))
  }

  ghost predicate NothingDropped(obs: seq<Observation>) { forall i :: 0 <= i < |obs| ==> !obs[i].Dropped? }

  /** That, for every way to read what was told as moments of a session. */
  ghost predicate FollowsAll(before: RunStatus, id: string, told: seq<WatchEvent>, after: Option<RunStatus>) {
    forall state: SessionState, obs: seq<Observation> :: Heard(id, state, obs) == told ==> Follows(before, state, obs, after)
  }

  /**
   * What became of a session's run.  One that existed follows its session.  One that did not is made
   * by the first snapshot of a session not seen before, as running, and follows it from there on.
   */
  ghost predicate Tracks(id: string, before: Tracked, told: seq<WatchEvent>, after: Tracked) {
    if before.run.Some? then
      && FollowsAll(before.run.value, id, told, after.run)
      && (!before.run.value.Running? && !before.run.value.Suspended? ==> after.run == Some(Undriven(before.run.value, told)))
    else if before.known || forall i :: 0 <= i < |told| ==> !told[i].Listed? then after == before
    else forall k: nat :: FirstListed(told, k) ==> FollowsAll(Running, id, told[k + 1..], after.run)
  }

  /**
   * A run not driven by this service ignores snapshots.  One that has ended ignores everything; one
   * that has not come as far as running ends with the first expiry or cancellation it is told of.
   */
  function Undriven(status: RunStatus, told: seq<WatchEvent>): RunStatus
    decreases |told|
  {
    if told == [] then status
    else
      var before, w := Undriven(status, told[..|told| - 1]), told[|told| - 1];
      if w.Listed? || before.Completed? || before.Failed? || before.Cancelled? then before
      else if w.ev == SessionExpired then Failed
      else if w.ev == SessionCancelled then Cancelled
      else before
  }

  lemma {:induction false} UndrivenStep(t: Tracked, w: WatchEvent)
    requires t.run.Some? && !t.run.value.Running? && !t.run.value.Suspended?
    ensures OnWatch(t, w).run == Some(
      if w.Listed? || t.run.value in {Completed, Failed, Cancelled} then t.run.value
      else if w.ev == SessionExpired then Failed
      else if w.ev == SessionCancelled then Cancelled
      else t.run.value)
  {}

  lemma {:induction false} UndrivenStays(t: Tracked, id: string, told: seq<WatchEvent>)
    requires t.run.Some? && !t.run.value.Running? && !t.run.value.Suspended?
    requires forall i :: 0 <= i < |told| ==> told[i].sessionId == id
    ensures Watched(t, id, told).run == Some(Undriven(t.run.value, told))
    ensures Undriven(t.run.value, told) in {t.run.value, Failed, Cancelled}
    decreases |told|
  {
    if told != [] {
      var rest, w := told[..|told| - 1], told[|told| - 1];
      UndrivenStays(t, id, rest);
      UndrivenStep(Watched(t, id, rest), w);
    }
  }

  ghost predicate FirstListed(told: seq<WatchEvent>, k: nat) {
    k < |told| && told[k].Listed? && forall i :: 0 <= i < k ==> !told[i].Listed?
  }

  lemma {:induction false} RunFollows(t: Tracked, id: string, told: seq<WatchEvent>)
    requires t.run.Some?
    ensures FollowsAll(t.run.value, id, told, Watched(t, id, told).run)
  {
    forall state: SessionState, obs: seq<Observation> | Heard(id, state, obs) == told
      ensures Follows(t.run.value, state, obs, Watched(t, id, told).run)
    {
      WatchIsRun(t, id, state, obs);
      if NotAstray(t.run.value, state) && Plausible(state, obs) {
        NeverAstray(t.run.value, state, obs);
        if obs != [] && obs[|obs| - 1].Synced? {
          var rest := obs[..|obs| - 1];
          NeverAstray(t.run.value, state, rest);
          SnapshotRepairs(RunAfter(t.run.value, state, rest), SessionAfter(state, rest));
        } else if t.run.value == StatusOf(state) && NothingDropped(obs) {
          LosslessTracks(state, obs);
        }
      }
    }
  }

  lemma {:induction false} NobodyToTell(t: Tracked, id: string, told: seq<WatchEvent>)
    requires t.run.None? && (t.known || forall i :: 0 <= i < |told| ==> !told[i].Listed?)
    ensures Watched(t, id, told) == t
    decreases |told|
  {
    if told != [] {
      NobodyToTell(t, id, told[..|told| - 1]);
    }
  }

  lemma {:induction false} WatchedAppend(t: Tracked, id: string, a: seq<WatchEvent>, b: seq<WatchEvent>)
    ensures Watched(t, id, a + b) == Watched(Watched(t, id, a), id, b)
    decreases |b|
  {
    if b == [] {
      assert a + b == a;
    } else {
      assert (a + b)[..|a| + |b| - 1] == a + b[..|b| - 1];
      WatchedAppend(t, id, a, b[..|b| - 1]);
    }
  }

  lemma {:induction false} WatchTracks(t: Tracked, id: string, told: seq<WatchEvent>)
    requires forall i :: 0 <= i < |told| ==> told[i].sessionId == id
    ensures Tracks(id, t, told, Watched(t, id, told))
  {
    if t.run.Some? {
      RunFollows(t, id, told);
      if !t.run.value.Running? && !t.run.value.Suspended? { UndrivenStays(t, id, told); }
    } else if t.known || forall i :: 0 <= i < |told| ==> !told[i].Listed? {
      NobodyToTell(t, id, told);
    } else {
      forall k: nat | FirstListed(told, k) ensures FollowsAll(Running, id, told[k + 1..], Watched(t, id, told).run) {
        NobodyToTell(t, id, told[..k]);
        assert told[..k + 1][..k] == told[..k] && told == told[..k + 1] + told[k + 1..];
        var made := Watched(t, id, told[..k + 1]);
        assert Created() == Running && made.run == Some(Running);
        WatchedAppend(t, id, told[..k + 1], told[k + 1..]);
        RunFollows(made, id, told[k + 1..]);
      }
    }
  }

  lemma {:induction false} AboutOnly(id: string, ws: seq<WatchEvent>)
    ensures forall i :: 0 <= i < |About(id, ws)| ==> About(id, ws)[i].sessionId == id
  {
    FilterMembers((w: WatchEvent) => w.sessionId == id, ws);
    assert forall i :: 0 <= i < |About(id, ws)| ==> About(id, ws)[i] in About(id, ws);
  }

  lemma {:induction false} AllTrack(before: map<string, Tracked>, after: map<string, Tracked>, ws: seq<WatchEvent>)
    requires forall id: string :: Lookup(after, id) == Watched(Lookup(before, id), id, ws)
    ensures forall id: string :: Tracks(id, Lookup(before, id), About(id, ws), Lookup(after, id))
  {
    forall id: string ensures Tracks(id, Lookup(before, id), About(id, ws), Lookup(after, id)) {
      WatchedIsAbout(Lookup(before, id), id, ws);
      AboutOnly(id, ws);
      WatchTracks(Lookup(before, id), id, About(id, ws));
    }
  }

  /** What ends a watch: a pause or a resolution of a run that has not come as far as running. */
  ghost predicate Unprepared(t: Tracked, w: WatchEvent) {
    && w.Changed? && t.run.Some? && t.run.value in {Queued, Starting, BindingSession}
    && w.ev in {SessionSuspended, SessionResolved}
  }

  lemma {:induction false} ThrowsIff(t: Tracked, w: WatchEvent)
    ensures Throws(t, w) <==> Unprepared(t, w)
  {}

  /** A marker threw: a lifecycle event the run's status does not admit ends the watch. */
  predicate Throws(t: Tracked, w: WatchEvent) {
    w.Changed? && t.run.Some? && !t.run.value.Terminal() && Conflicts(t.run.value, MarkFor(w.ev))
  }

  class SessionDiscovery {
    var sessions: map<string, Tracked>

    constructor (sessions: map<string, Tracked>)
      ensures this.sessions == sessions
    {
      this.sessions := sessions;
    }

    /**
     * `consumeWatchStream`: events are handled in order until one throws; what was handled leaves
     * every run tracking its own session.
     */
    method ConsumeWatchStream(ws: seq<WatchEvent>) returns (handled: nat)
      modifies this
      ensures handled <= |ws|
      ensures forall id: string :: Tracks(id, Lookup(old(sessions), id), About(id, ws[..handled]), Lookup(sessions, id))
      ensures forall id: string :: Lookup(sessions, id) == Watched(Lookup(old(sessions), id), id, ws[..handled])
      ensures handled < |ws| ==> Unprepared(Lookup(sessions, ws[handled].sessionId), ws[handled])
    {
      handled := 0;
      while handled < |ws|
        invariant handled <= |ws|
        invariant forall id: string :: Lookup(sessions, id) == Watched(Lookup(old(sessions), id), id, ws[..handled])
      {
        var w := ws[handled];
        var t := Lookup(sessions, w.sessionId);
        ThrowsIff(t, w);
        if Throws(t, w) {
          AllTrack(old(sessions), sessions, ws[..handled]);
          return;
        }
        assert ws[..handled + 1][..handled] == ws[..handled];
        sessions := sessions[w.sessionId := OnWatch(t, w)];
        handled := handled + 1;
      }
      AllTrack(old(sessions), sessions, ws[..handled]);
    }
  }
}
