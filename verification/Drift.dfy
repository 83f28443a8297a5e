/** `getRuntimeSessionDrift`: the two-way diff of the drained session list against the runs table. */
module Drift {
  import opened Prelude
  import opened Events
  import opened Breaker
  import opened ListSessions

  datatype Session = Session(sessionId: string, state: SessionState)

  datatype Run = Run(runId: string, status: RunStatus, runtimeSessionId: Option<string>)
  {
    predicate Active() { status.Starting? || status.BindingSession? || status.Running? || status.Suspended? }

    /** Holds a session id; the empty string counts as none. */
    predicate Bound() { runtimeSessionId.Some? && runtimeSessionId.value != "" }
  }

  datatype Missing = Missing(runId: string, runtimeSessionId: string)

  datatype Report = Report(
    complete: bool, runtimeSessionCount: nat, liveRuntimeSessionCount: nat, trackedRunCount: nat,
    untrackedSessions: seq<Session>, missingFromRuntime: Option<seq<Missing>>)

  predicate Live(s: Session) { s.state.StateOpen? || s.state.StateSuspended? }

  function ListActiveRuns(runs: seq<Run>): seq<Run> { Filter((r: Run) => r.Active(), runs) }

  function TrackedIds(runs: seq<Run>): set<string> {
    set r <- runs | r.Bound() :: r.runtimeSessionId.value
  }

  function LiveIds(sessions: seq<Session>): set<string> {
    set s <- sessions :: s.sessionId
  }

  function ToMissing(r: Run): Missing { Missing(r.runId, r.runtimeSessionId.Or("")) }

  /** The report for a drain that returned. */
  function GetDrift(sessions: seq<Session>, complete: bool, runs: seq<Run>): Report {
    var active := ListActiveRuns(runs);
    var tracked := TrackedIds(active);
    var live := Filter(Live, sessions);
    var liveIds := LiveIds(live);
    Report(complete, |sessions|, |live|, |active|,
      Filter((s: Session) => s.sessionId !in tracked, live),
      if complete
      then Some(Map(ToMissing, Filter((r: Run) => r.Bound() && r.runtimeSessionId.value !in liveIds,
                                      Filter((r: Run) => !r.status.Starting?, active))))
      else None)
  }

  // ---- What drift means, with no lists fetched ------------------------------------------------

  /** A live session no active run is bound to. */
  ghost predicate Untracked(runs: seq<Run>, s: Session) {
    Live(s) && forall r :: r in runs && r.Active() && r.Bound() ==> r.runtimeSessionId.value != s.sessionId
  }

  /** An active run past starting, bound to a session the runtime does not hold live. */
  ghost predicate Orphaned(store: seq<Session>, r: Run) {
    r.Active() && !r.status.Starting? && r.Bound() && forall s :: s in store && Live(s) ==> s.sessionId != r.runtimeSessionId.value
  }

  lemma {:induction false} FilterFilter<T>(p: T -> bool, q: T -> bool, r: T -> bool, s: seq<T>)
    requires forall i :: 0 <= i < |s| ==> r(s[i]) == (p(s[i]) && q(s[i]))
    ensures Filter(q, Filter(p, s)) == Filter(r, s)
    decreases |s|
  {
    if s != [] {
      var n := |s| - 1;
      assert forall i :: 0 <= i < n ==> s[..n][i] == s[i];
      FilterFilter(p, q, r, s[..n]);
      var rest := Filter(p, s[..n]);
      if p(s[n]) {
        assert (rest + [s[n]])[..|rest|] == rest;
      } else {
        assert rest + [] == rest && Filter(q, rest) + [] == Filter(q, rest);
      }
    }
  }

  /** The untracked sessions reported from any list are exactly those of the list. */
  lemma {:induction false} UntrackedExact(sessions: seq<Session>, complete: bool, runs: seq<Run>)
    ensures GetDrift(sessions, complete, runs).untrackedSessions == Filter((s: Session) => Untracked(runs, s), sessions)
  {
    var active := ListActiveRuns(runs);
    FilterMembers((r: Run) => r.Active(), runs);
    FilterFilter(Live, (s: Session) => s.sessionId !in TrackedIds(active), (s: Session) => Untracked(runs, s), sessions);
  }

  /** A missing run is named by its id and the session it is bound to. */
  lemma {:induction false} MissingExact(store: seq<Session>, runs: seq<Run>)
    ensures GetDrift(store, true, runs).missingFromRuntime == Some(Map(ToMissing, Filter((r: Run) => Orphaned(store, r), runs)))
    ensures forall r: Run :: Orphaned(store, r) ==>
      ToMissing(r).runId == r.runId && r.runtimeSessionId == Some(ToMissing(r).runtimeSessionId)
  {
    var liveIds := LiveIds(Filter(Live, store));
    FilterMembers(Live, store);
    FilterFilter((r: Run) => r.Active(), (r: Run) => !r.status.Starting?, (r: Run) => r.Active() && !r.status.Starting?, runs);
    FilterFilter((r: Run) => r.Active() && !r.status.Starting?, (r: Run) => r.Bound() && r.runtimeSessionId.value !in liveIds,
      (r: Run) => Orphaned(store, r), runs);
  }

  /**
   * For every drain that returns: the untracked sessions reported are a prefix of the truth about
   * the runtime's whole store, so sound even when truncated; after a complete drain both directions
   * are exact, and after a truncated one the reverse direction is not reported at all.
   */
  lemma {:induction false} DriftSound(cfg: DrainConfig, store: seq<Session>, startedAt: int, env: nat -> Turn,
      breaker: Fields, runs: seq<Run>)
    ensures var d := Drained(cfg, store, startedAt, env, breaker);
      var complete := d.ending == Some(Complete);
      var report := GetDrift(d.sessions, complete, runs);
      var untracked := Filter((s: Session) => Untracked(runs, s), store);
      && report.untrackedSessions <= untracked
      && (complete ==> report.untrackedSessions == untracked)
      && report.complete == complete && report.runtimeSessionCount == |d.sessions|
      && report.liveRuntimeSessionCount == Count(Live, d.sessions)
      && report.trackedRunCount == Count((r: Run) => r.status in {Starting, BindingSession, Running, Suspended}, runs)
      && report.missingFromRuntime == (if complete then Some(Map(ToMissing, Filter((r: Run) => Orphaned(store, r), runs))) else None)
  {
    var d := Drained(cfg, store, startedAt, env, breaker);
    DrainIsPrefix(cfg, store, startedAt, env, breaker);
    UntrackedExact(d.sessions, d.ending == Some(Complete), runs);
    MissingExact(store, runs);
    FilterPrefix((s: Session) => Untracked(runs, s), d.sessions, store);
    FilterCounts(Live, Live, d.sessions);
    FilterCounts((r: Run) => r.Active(), (r: Run) => r.status in {Starting, BindingSession, Running, Suspended}, runs);
  }

  lemma {:induction false} FilterCounts<T>(p: T -> bool, q: T -> bool, s: seq<T>)
    requires forall i :: 0 <= i < |s| ==> p(s[i]) == q(s[i])
    ensures |Filter(p, s)| == Count(q, s)
    decreases |s|
  {
    if s != [] { FilterCounts(p, q, s[..|s| - 1]); }
  }

  lemma {:induction false} FilterPrefix<T>(keep: T -> bool, a: seq<T>, b: seq<T>)
    requires a <= b
    ensures Filter(keep, a) <= Filter(keep, b)
  {
    assert b == a + b[|a|..];
    FilterAppend(keep, a, b[|a|..]);
  }

  /** Why the reverse direction is withheld: on a truncated list it would accuse a healthy run. */
  lemma {:induction false} TruncatedReverseUnsound()
    ensures var store := [Session("a", StateOpen), Session("b", StateOpen)];
      var run := Run("r", RunStatus.Running, Some("b"));
      store[..1] <= store && Orphaned(store[..1], run) && !Orphaned(store, run)
  {
    assert [Session("a", StateOpen), Session("b", StateOpen)][1] == Session("b", StateOpen);
  }
}
