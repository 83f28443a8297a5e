/**
 * `CircuitBreaker`: the shared breaker in front of every unary runtime call.  Calls overlap, so one
 * `execute` is two steps, its admission and its settling, with other calls' steps in between.
 */
module Breaker {
  import opened Prelude

  datatype Status = CLOSED | OPEN | HALF_OPEN

  datatype Reason =
    | Initial
    | ResetTimeout(elapsed: int)
    | ProbeSucceeded
    | OtherSuccess
    | Failures(count: nat)
    | ManualReset

  datatype Change = Change(status: Status, enteredAt: int, reason: Reason)

  const HISTORY_SIZE: nat := 200

  datatype Config = Config(failureThreshold: int, resetTimeoutMs: int)

  /** The breaker's fields. */
  datatype Fields = Fields(status: Status, failureCount: nat, lastFailureTime: int, history: seq<Change>)

  function New(now: int): Fields { Fields(CLOSED, 0, 0, [Change(CLOSED, now, Initial)]) }

  /** How a call that was let through ended; an expected error says nothing about the runtime's health. */
  datatype Outcome = Success | Failure | ExpectedError

  // ---- The code, as functions of the fields ---------------------------------------------------

  function Record(history: seq<Change>, c: Change): seq<Change> {
    if history != [] && history[|history| - 1].status == c.status then history else Last(history + [c], HISTORY_SIZE)
  }

  function AfterGetState(cfg: Config, f: Fields, now: int): Fields {
    if f.status == OPEN && now - f.lastFailureTime >= cfg.resetTimeoutMs
    then f.(status := HALF_OPEN, history := Record(f.history, Change(HALF_OPEN, now, ResetTimeout(now - f.lastFailureTime))))
    else f
  }

  function AfterSuccess(f: Fields, now: int): Fields {
    f.(failureCount := 0, status := CLOSED,
       history := if f.status == CLOSED then f.history
                  else Record(f.history, Change(CLOSED, now, if f.status == HALF_OPEN then ProbeSucceeded else OtherSuccess)))
  }

  function AfterFailure(cfg: Config, f: Fields, now: int): Fields {
    var g := f.(failureCount := f.failureCount + 1, lastFailureTime := now);
    if g.failureCount < cfg.failureThreshold then g
    else g.(status := OPEN,
            history := if f.status == OPEN then f.history else Record(f.history, Change(OPEN, now, Failures(g.failureCount))))
  }

  function AfterReset(f: Fields, now: int): Fields {
    f.(failureCount := 0, status := CLOSED,
       history := if f.status == CLOSED then f.history else Record(f.history, Change(CLOSED, now, ManualReset)))
  }

  function Settled(cfg: Config, f: Fields, outcome: Outcome, now: int): Fields {
    match outcome
    case Success => AfterSuccess(f, now)
    case Failure => AfterFailure(cfg, f, now)
    case ExpectedError => f
  }

  lemma {:induction false} Shift<T>(s: seq<T>)
    requires |s| > HISTORY_SIZE
    ensures Last(s[1..], HISTORY_SIZE) == Last(s, HISTORY_SIZE)
  {}

  class CircuitBreaker {
    const config: Config
    var status: Status
    var failureCount: nat
    var lastFailureTime: int
    var history: seq<Change>

    ghost function Value(): Fields
      reads this
    {
      Fields(status, failureCount, lastFailureTime, history)
    }

    constructor (config: Config, now: int)
      ensures this.config == config && Value() == New(now)
    {
      this.config := config;
      status, failureCount, lastFailureTime, history := CLOSED, 0, 0, [Change(CLOSED, now, Initial)];
    }

    method RecordTransition(c: Change)
      modifies this
      ensures Value() == old(Value()).(history := Record(old(history), c))
    {
      if |history| > 0 && history[|history| - 1].status == c.status { return; }
      history := history + [c];
      while |history| > HISTORY_SIZE
        invariant Last(history, HISTORY_SIZE) == Last(old(history) + [c], HISTORY_SIZE)
        invariant status == old(status) && failureCount == old(failureCount) && lastFailureTime == old(lastFailureTime)
      {
        Shift(history);
        history := history[1..];
      }
    }

    method GetState(now: int) returns (r: Status)
      modifies this
      ensures Value() == AfterGetState(config, old(Value()), now) && r == status
    {
      if status == OPEN {
        var elapsed := now - lastFailureTime;
        if elapsed >= config.resetTimeoutMs {
          status := HALF_OPEN;
          RecordTransition(Change(HALF_OPEN, now, ResetTimeout(elapsed)));
        }
      }
      return status;
    }

    /** The first half of `execute`: whether the call is let through. */
    method Admit(now: int) returns (admitted: bool)
      modifies this
      ensures Value() == AfterGetState(config, old(Value()), now) && admitted == (status != OPEN)
    {
      var current := GetState(now);
      admitted := current != OPEN;
    }

    method OnSuccess(now: int)
      modifies this
      ensures Value() == AfterSuccess(old(Value()), now)
    {
      var wasHalfOpen := status == HALF_OPEN;
      failureCount := 0;
      var previous := status;
      status := CLOSED;
      if previous != CLOSED {
        RecordTransition(Change(CLOSED, now, if wasHalfOpen then ProbeSucceeded else OtherSuccess));
      }
    }

    method OnFailure(now: int)
      modifies this
      ensures Value() == AfterFailure(config, old(Value()), now)
    {
      failureCount := failureCount + 1;
      lastFailureTime := now;
      var previous := status;
      if failureCount >= config.failureThreshold {
        status := OPEN;
        if previous != OPEN {
          RecordTransition(Change(OPEN, now, Failures(failureCount)));
        }
      }
    }

    /** The second half of `execute`. */
    method Settle(outcome: Outcome, now: int)
      modifies this
      ensures Value() == Settled(config, old(Value()), outcome, now)
    {
      match outcome
      case Success => OnSuccess(now);
      case ExpectedError =>
      case Failure => OnFailure(now);
    }

    method Reset(now: int)
      modifies this
      ensures Value() == AfterReset(old(Value()), now)
    {
      failureCount := 0;
      var wasDifferent := status != CLOSED;
      status := CLOSED;
      if wasDifferent {
        RecordTransition(Change(CLOSED, now, ManualReset));
      }
    }
  }

  // ---- Overlapping calls ----------------------------------------------------------------------

  datatype Action = Ask | Settles(outcome: Outcome) | ManualResetting | Wait

  /** Breaker, clock and the number of admitted calls not yet settled. */
  datatype Machine = Machine(fields: Fields, now: int, inFlight: nat)

  /** A step that happened, with the machine before and after it. */
  datatype Step = Step(before: Machine, action: Action, after: Machine) {
    predicate Admits() { action == Ask && after.fields.status != OPEN }

    predicate Fails() { action == Settles(Failure) }

    /** A success or a manual reset: what forgives earlier failures. */
    predicate Forgives() { action == Settles(Success) || action == ManualResetting }
  }

  ghost predicate Does(cfg: Config, st: Step) {
    var m, m' := st.before, st.after;
    match st.action
    case Ask =>
      var f := AfterGetState(cfg, m.fields, m.now);
      m' == m.(fields := f, inFlight := if f.status == OPEN then m.inFlight else m.inFlight + 1)
    case Settles(outcome) =>
      m.inFlight > 0 && m' == m.(fields := Settled(cfg, m.fields, outcome, m.now), inFlight := m.inFlight - 1)
    case ManualResetting => m' == m.(fields := AfterReset(m.fields, m.now))
    case Wait => m'.now >= m.now && m' == m.(now := m'.now)
  }

  ghost predicate Run(cfg: Config, start: int, run: seq<Step>) {
    && (forall i :: 0 <= i < |run| ==> Does(cfg, run[i]))
    && (run != [] ==> run[0].before == Machine(New(start), start, 0))
    && (forall i :: 0 <= i < |run| - 1 ==> run[i].after == run[i + 1].before)
  }

  function Final(start: int, run: seq<Step>): Machine {
    if run == [] then Machine(New(start), start, 0) else run[|run| - 1].after
  }

  /** What there is to record of an action that changes the state. */
  function Entered(f: Fields, a: Action, now: int): Change {
    match a
    case Ask => Change(HALF_OPEN, now, ResetTimeout(now - f.lastFailureTime))
    case Settles(Success) => Change(CLOSED, now, if f.status == HALF_OPEN then ProbeSucceeded else OtherSuccess)
    case Settles(_) => Change(OPEN, now, Failures(f.failureCount + 1))
    case _ => Change(CLOSED, now, ManualReset)
  }

  /** The true transition trace: one entry for each step that left the breaker in another state. */
  function Trace(start: int, run: seq<Step>): (trace: seq<Change>)
    ensures trace != []
    decreases |run|
  {
    if run == [] then [Change(CLOSED, start, Initial)]
    else Trace(start, run[..|run| - 1]) + Moved(run[|run| - 1])
  }

  function Moved(st: Step): seq<Change> {
    if st.after.fields.status == st.before.fields.status then []
    else [Entered(st.before.fields, st.action, st.before.now)]
  }

  /** Counted failures since the last success or reset. */
  function FailuresSince(run: seq<Step>): nat
    decreases |run|
  {
    if run == [] then 0
    else
      var st := run[|run| - 1];
      if st.Forgives() then 0
      else FailuresSince(run[..|run| - 1]) + if st.Fails() then 1 else 0
  }

  predicate Follows(a: Status, b: Status) { a != b && !(a == CLOSED && b == HALF_OPEN) }

  lemma {:induction false} Prefix(cfg: Config, start: int, run: seq<Step>)
    requires Run(cfg, start, run) && run != []
    ensures Run(cfg, start, run[..|run| - 1]) && Final(start, run[..|run| - 1]) == run[|run| - 1].before
    ensures Does(cfg, run[|run| - 1]) && Final(start, run) == run[|run| - 1].after
  {}

  /**
   * The state is a function of the settled outcomes alone: the counter is the number of counted
   * failures since the last success or reset, and the breaker is CLOSED exactly while that number
   * is zero or below the threshold.
   */
  lemma {:induction false} ClosedIffBelowThreshold(cfg: Config, start: int, run: seq<Step>)
    requires Run(cfg, start, run)
    ensures var f := Final(start, run).fields;
      && f.failureCount == FailuresSince(run)
      && (f.status == CLOSED <==> FailuresSince(run) == 0 || FailuresSince(run) < cfg.failureThreshold)
    decreases |run|
  {
    if run != [] {
      Prefix(cfg, start, run);
      ClosedIffBelowThreshold(cfg, start, run[..|run| - 1]);
    }
  }

  /** Recording into the window is recording into the whole trace. */
  lemma {:induction false} RecordWindow(history: seq<Change>, trace: seq<Change>, c: Change)
    requires trace != [] && history == Last(trace, HISTORY_SIZE) && trace[|trace| - 1].status != c.status
    ensures Record(history, c) == Last(trace + [c], HISTORY_SIZE)
  {
    assert history[|history| - 1] == trace[|trace| - 1];
    LastAppend(trace, [c], HISTORY_SIZE);
  }

  /**
   * The ring is the last 200 entries of the true transition trace; its last entry is the current
   * state; and in the trace no state repeats and CLOSED is never followed directly by HALF_OPEN.
   */
  lemma {:induction false} HistoryIsTheTrace(cfg: Config, start: int, run: seq<Step>)
    requires Run(cfg, start, run)
    ensures var f, trace := Final(start, run).fields, Trace(start, run);
      && f.history == Last(trace, HISTORY_SIZE)
      && trace[|trace| - 1].status == f.status
      && forall i :: 0 <= i < |trace| - 1 ==> Follows(trace[i].status, trace[i + 1].status)
    decreases |run|
  {
    if run != [] {
      Prefix(cfg, start, run);
      HistoryIsTheTrace(cfg, start, run[..|run| - 1]);
      HistoryStep(cfg, run[|run| - 1], Trace(start, run[..|run| - 1]));
    }
  }

  lemma {:induction false} HistoryStep(cfg: Config, st: Step, trace: seq<Change>)
    requires Does(cfg, st) && trace != []
    requires st.before.fields.history == Last(trace, HISTORY_SIZE)
      && trace[|trace| - 1].status == st.before.fields.status
    ensures st.after.fields.history == Last(trace + Moved(st), HISTORY_SIZE)
    ensures (trace + Moved(st))[|trace + Moved(st)| - 1].status == st.after.fields.status
    ensures st.after.fields.status == st.before.fields.status
      || Follows(st.before.fields.status, st.after.fields.status)
  {
    assert trace + [] == trace;
    if st.after.fields.status != st.before.fields.status {
      RecordWindow(st.before.fields.history, trace, Entered(st.before.fields, st.action, st.before.now));
    }
  }

  /** A failure at t left the breaker OPEN: no failure counts as older, and HALF_OPEN means the timeout has passed. */
  ghost predicate Since(cfg: Config, m: Machine, t: int) {
    && t <= m.now && t <= m.fields.lastFailureTime
    && (m.fields.status == HALF_OPEN ==> t + cfg.resetTimeoutMs <= m.now)
  }

  lemma {:induction false} SinceFailure(cfg: Config, start: int, run: seq<Step>, i: nat, j: nat)
    requires Run(cfg, start, run) && i <= j < |run| && run[i].Fails() && run[i].after.fields.status == OPEN
    ensures Since(cfg, run[j].after, run[i].before.now)
  {
    if i < j {
      SinceFailure(cfg, start, run, i, j - 1);
      assert run[j - 1].after == run[j - 1 + 1].before;
      assert Does(cfg, run[j]);
    }
  }

  /** The machine before step j is where the steps before it lead. */
  lemma {:induction false} CountAt(cfg: Config, start: int, run: seq<Step>, j: nat)
    requires Run(cfg, start, run) && j <= |run|
    ensures Run(cfg, start, run[..j]) && (j < |run| ==> Final(start, run[..j]) == run[j].before)
    ensures j > 0 ==> Final(start, run[..j]) == run[j - 1].after
    ensures var f := Final(start, run[..j]).fields;
      f.status == CLOSED <==> FailuresSince(run[..j]) == 0 || FailuresSince(run[..j]) < cfg.failureThreshold
  {
    ClosedIffBelowThreshold(cfg, start, run[..j]);
    if 0 < j < |run| { assert run[j - 1].after == run[j - 1 + 1].before; }
  }

  /** When a call last failed, if any did. */
  function LastFailure(run: seq<Step>): Option<int>
    decreases |run|
  {
    if run == [] then None
    else if run[|run| - 1].Fails() then Some(run[|run| - 1].before.now) else LastFailure(run[..|run| - 1])
  }

  /** What the machine keeps of the last failure, and that HALF_OPEN means its reset window is over. */
  lemma {:induction false} FailureKept(cfg: Config, start: int, run: seq<Step>)
    requires Run(cfg, start, run)
    ensures var m := Final(start, run);
      && (m.fields.status != CLOSED ==> LastFailure(run).Some?)
      && (LastFailure(run).Some? ==> m.fields.lastFailureTime == LastFailure(run).value)
      && (m.fields.status == HALF_OPEN ==> m.fields.lastFailureTime + cfg.resetTimeoutMs <= m.now)
    decreases |run|
  {
    if run != [] {
      Prefix(cfg, start, run);
      FailureKept(cfg, start, run[..|run| - 1]);
      ClosedIffBelowThreshold(cfg, start, run[..|run| - 1]);
    }
  }

  /**
   * Which calls are let through, over every run: one is if and only if the failures since the last
   * success or reset do not reach the threshold, or the last failure is the reset timeout ago or longer.
   */
  lemma {:induction false} AdmittedIff(cfg: Config, start: int, run: seq<Step>, j: nat)
    requires Run(cfg, start, run) && j < |run| && run[j].action == Ask
    ensures run[j].Admits() <==>
      || FailuresSince(run[..j]) == 0 || FailuresSince(run[..j]) < cfg.failureThreshold
      || (LastFailure(run[..j]).Some? && run[j].before.now >= LastFailure(run[..j]).value + cfg.resetTimeoutMs)
  {
    CountAt(cfg, start, run, j);
    FailureKept(cfg, start, run[..j]);
    assert Does(cfg, run[j]);
  }

  /**
   * Inside the reset window of a failure that left the breaker OPEN, a call is admitted exactly
   * when the failures counted since the last success or reset no longer reach the threshold.
   */
  lemma {:induction false} AdmittedEarlyIff(cfg: Config, start: int, run: seq<Step>, i: nat, j: nat)
    requires Run(cfg, start, run) && i < j < |run|
    requires run[i].Fails() && run[i].after.fields.status == OPEN
    requires run[j].action == Ask && run[j].before.now < run[i].before.now + cfg.resetTimeoutMs
    ensures run[j].Admits() <==> FailuresSince(run[..j]) == 0 || FailuresSince(run[..j]) < cfg.failureThreshold
  {
    SinceFailure(cfg, start, run, i, j - 1);
    CountAt(cfg, start, run, j);
    assert Does(cfg, run[j]);
  }

  /** While nothing forgives, the count only grows. */
  lemma {:induction false} UnforgivenGrows(run: seq<Step>, i: nat, j: nat)
    requires i <= j <= |run| && forall k :: i <= k < j ==> !run[k].Forgives()
    ensures FailuresSince(run[..i]) <= FailuresSince(run[..j])
    decreases j
  {
    if i < j {
      UnforgivenGrows(run, i, j - 1);
      assert run[..j][..j - 1] == run[..j - 1];
    }
  }

  /**
   * So while nothing forgives, no call is admitted within the reset timeout of any failure that
   * left the breaker OPEN, however calls overlap.
   */
  lemma {:induction false} NoEarlyAdmission(cfg: Config, start: int, run: seq<Step>, i: nat, j: nat)
    requires Run(cfg, start, run) && i < j < |run|
    requires run[i].Fails() && run[i].after.fields.status == OPEN
    requires forall k :: i < k < j ==> !run[k].Forgives()
    requires run[j].Admits()
    ensures run[j].before.now >= run[i].before.now + cfg.resetTimeoutMs
  {
    CountAt(cfg, start, run, i + 1);
    UnforgivenGrows(run, i + 1, j);
    if run[j].before.now < run[i].before.now + cfg.resetTimeoutMs {
      AdmittedEarlyIff(cfg, start, run, i, j);
    }
  }

  // ---- Early admission happens in every configuration -----------------------------------------

  lemma {:induction false} RunAppend(cfg: Config, start: int, run: seq<Step>, st: Step)
    requires Run(cfg, start, run) && Does(cfg, st) && st.before == Final(start, run)
    ensures Run(cfg, start, run + [st]) && Final(start, run + [st]) == st.after
  {}

  /** n calls admitted and none settled. */
  lemma {:induction false} AllAsked(cfg: Config, start: int, n: nat) returns (run: seq<Step>)
    ensures Run(cfg, start, run) && Final(start, run) == Machine(New(start), start, n)
  {
    run := [];
    if n > 0 {
      run := AllAsked(cfg, start, n - 1);
      var m := Final(start, run);
      var st := Step(m, Ask, m.(inFlight := n));
      RunAppend(cfg, start, run, st);
      run := run + [st];
    }
  }

  /** The failures that open a breaker of this configuration. */
  function Fatal(cfg: Config): nat { if cfg.failureThreshold < 1 then 1 else cfg.failureThreshold }

  /** k of n admitted calls failed, too few or just enough to open it. */
  lemma {:induction false} SomeFailed(cfg: Config, start: int, n: nat, k: nat) returns (run: seq<Step>)
    requires k <= n && k <= Fatal(cfg)
    ensures Run(cfg, start, run)
    ensures var m := Final(start, run);
      && m.now == start && m.inFlight == n - k && m.fields.failureCount == k
      && m.fields.status == (if k == Fatal(cfg) then OPEN else CLOSED)
    ensures k > 0 ==> run != [] && run[|run| - 1].Fails() && run[|run| - 1].before.now == start
  {
    if k == 0 {
      run := AllAsked(cfg, start, n);
    } else {
      run := SomeFailed(cfg, start, n, k - 1);
      var m := Final(start, run);
      var st := Step(m, Settles(Failure), m.(fields := AfterFailure(cfg, m.fields, start), inFlight := m.inFlight - 1));
      RunAppend(cfg, start, run, st);
      run := run + [st];
    }
  }

  /**
   * The exception is real in every configuration: a success that was in flight when the breaker
   * opened lets the next call in with no time passed.
   */
  lemma {:induction false} LateSuccessReopens(cfg: Config, start: int) returns (run: seq<Step>, i: nat)
    ensures Run(cfg, start, run) && |run| == i + 3
    ensures run[i].Fails() && run[i].after.fields.status == OPEN && run[i + 2].Admits()
    ensures run[i + 2].before.now == run[i].before.now
  {
    var tripped := SomeFailed(cfg, start, Fatal(cfg) + 1, Fatal(cfg));
    i := |tripped| - 1;
    var m := Final(start, tripped);
    var late := Step(m, Settles(Success), m.(fields := AfterSuccess(m.fields, start), inFlight := 0));
    RunAppend(cfg, start, tripped, late);
    var next := Step(late.after, Ask, late.after.(inFlight := 1));
    RunAppend(cfg, start, tripped + [late], next);
    run := tripped + [late] + [next];
  }
}
