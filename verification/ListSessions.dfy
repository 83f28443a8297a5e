/**
 * `listSessions`: draining the runtime's paginated session store through the shared breaker,
 * halving the page size when a page is too large.  The runtime is any list of answers, one for each
 * call; its store does not change during the drain, and a page token names a position in it.
 */
module ListSessions {
  import opened Prelude
  import opened Breaker

  const MAX_PAGE_SIZE_HALVINGS: nat := 2

  datatype GrpcStatus =
    | NOT_FOUND | PERMISSION_DENIED | RESOURCE_EXHAUSTED
    | UNAVAILABLE | DEADLINE_EXCEEDED | INTERNAL | UNKNOWN | DATA_LOSS
    | OtherStatus(code: nat)

  /** A gRPC status, with the registry code a newer runtime attaches. */
  datatype GrpcError = GrpcError(status: GrpcStatus, macpCode: Option<string>)

  /**
   * A page of up to `count` sessions; at the end of the store it may still carry a token (`trailing`),
   * to an empty page.
   */
  datatype Reply = Sessions(count: nat, trailing: bool) | Refused(error: GrpcError)

  /** One call as the environment sees it: the clock when asked, when settled and when caught, and the reply. */
  datatype Turn = Turn(asked: int, settled: int, caught: int, reply: Reply)

  datatype DrainConfig = DrainConfig(pageSize: nat, maxPages: nat, timeoutMs: int, breaker: Config)

  datatype Thrown = BreakerOpen | Grpc(error: GrpcError)

  datatype Ending = Complete | PageCap | TimedOut | TimedOutMidPage | Threw(error: Thrown)

  /** Transport-class statuses and the runtime's own trouble count against it; other coded refusals do not. */
  predicate IsExpected(e: GrpcError) {
    || e.status.NOT_FOUND? || e.status.PERMISSION_DENIED?
    || (e.macpCode.Some? && e.macpCode.value !in {"INTERNAL_ERROR", "STREAM_LAGGED"}
        && e.status !in {UNAVAILABLE, DEADLINE_EXCEEDED, INTERNAL, UNKNOWN, DATA_LOSS})
  }

  predicate PageTooLarge(e: GrpcError) {
    e.status.RESOURCE_EXHAUSTED? && (e.macpCode.None? || e.macpCode.value == "PAYLOAD_TOO_LARGE")
  }

  function Verdict(reply: Reply): Outcome {
    if reply.Sessions? then Success else if IsExpected(reply.error) then ExpectedError else Failure
  }

  function Max(a: nat, b: int): nat { if a < b then b else a }

  /** Where a page that starts at `from` and holds up to `count` sessions ends. */
  function PageEnd(total: nat, from: nat, count: nat): nat { if from + count < total then from + count else total }

  /** The locals of the drain, the breaker, and counters of the calls made and of the failures it counted. */
  datatype Drain<S> = Drain(
    sessions: seq<S>, token: Option<nat>, pageSize: nat, pages: nat, halvings: nat,
    breaker: Fields, calls: nat, counted: nat, ending: Option<Ending>)
  {
    function Offset(): nat { token.Or(0) }
  }

  function Begin<S>(cfg: DrainConfig, breaker: Fields): Drain<S> {
    Drain([], None, cfg.pageSize, 0, 0, breaker, 0, 0, None)
  }

  /** A reply to a call that was let through. */
  function Answered<S>(store: seq<S>, deadlineAt: int, d: Drain<S>, t: Turn): Drain<S> {
    match t.reply
    case Sessions(count, trailing) =>
      var from := d.Offset();
      var end := PageEnd(|store|, from, count);
      var d': Drain<S> := d.(pages := d.pages + 1, sessions := if from <= end then d.sessions + store[from..end] else d.sessions);
      if end == |store| && !trailing then d'.(ending := Some(Complete)) else d'.(token := Some(end))
    case Refused(e) =>
      if e.status.DEADLINE_EXCEEDED? && t.caught >= deadlineAt then d.(ending := Some(TimedOutMidPage))
      else if PageTooLarge(e) && d.pageSize > 1 && d.halvings < MAX_PAGE_SIZE_HALVINGS
      then d.(halvings := d.halvings + 1, pageSize := Max(1, d.pageSize / 2))
      else d.(ending := Some(Threw(Grpc(e))))
  }

  /** One pass of the loop. */
  function Round<S>(cfg: DrainConfig, store: seq<S>, deadlineAt: int, d: Drain<S>, t: Turn): Drain<S> {
    if d.pages >= cfg.maxPages then d.(ending := Some(PageCap))
    else if deadlineAt - t.asked <= 0 then d.(ending := Some(TimedOut))
    else
      var b := AfterGetState(cfg.breaker, d.breaker, t.asked);
      if b.status == OPEN then d.(breaker := b, ending := Some(Threw(BreakerOpen)))
      else
        var called: Drain<S> :=
          d.(breaker := Settled(cfg.breaker, b, Verdict(t.reply), t.settled),
             calls := d.calls + 1, counted := d.counted + if Verdict(t.reply) == Failure then 1 else 0);
        Answered(store, deadlineAt, called, t)
  }

  /** The rest of the drain, from the i-th answer on. */
  function Rounds<S>(cfg: DrainConfig, store: seq<S>, deadlineAt: int, env: nat -> Turn, d: Drain<S>, i: nat): Drain<S>
    decreases Max(0, cfg.maxPages - d.pages) + Max(0, MAX_PAGE_SIZE_HALVINGS - d.halvings)
  {
    if d.ending.Some? then d
    else
      var d' := Round(cfg, store, deadlineAt, d, env(i));
      if d'.ending.Some? then d' else Rounds(cfg, store, deadlineAt, env, d', i + 1)
  }

  function Drained<S>(cfg: DrainConfig, store: seq<S>, startedAt: int, env: nat -> Turn, breaker: Fields): Drain<S> {
    Rounds(cfg, store, startedAt + cfg.timeoutMs, env, Begin(cfg, breaker), 0)
  }

  // ---- The loop -------------------------------------------------------------------------------

  /** `listSessions` over a live breaker. */
  method ListAll<S(!new)>(breaker: CircuitBreaker, cfg: DrainConfig, store: seq<S>, startedAt: int, env: nat -> Turn)
    returns (sessions: seq<S>, ending: Ending, pagesFetched: nat, ghost d: Drain<S>)
    requires breaker.config == cfg.breaker
    modifies breaker
    ensures d == Drained(cfg, store, startedAt, env, old(breaker.Value()))
    ensures sessions == d.sessions && Some(ending) == d.ending && pagesFetched == d.pages
      && breaker.Value() == d.breaker
    ensures Shows(cfg, store, startedAt + cfg.timeoutMs, old(breaker.Value()), env, d)
  {
    DrainExplained(cfg, store, startedAt, env, breaker.Value());
    var deadlineAt := startedAt + cfg.timeoutMs;
    var token: Option<nat> := None;
    var pageSize, halvings, i := cfg.pageSize, 0, 0;
    sessions, pagesFetched, d := [], 0, Begin(cfg, breaker.Value());
    while pagesFetched < cfg.maxPages
      invariant d.ending.None? && d.sessions == sessions && d.token == token && d.pageSize == pageSize
      invariant d.pages == pagesFetched && d.halvings == halvings && d.breaker == breaker.Value()
      invariant Rounds(cfg, store, deadlineAt, env, d, i) == Drained(cfg, store, startedAt, env, old(breaker.Value()))
      decreases cfg.maxPages - pagesFetched + Max(0, MAX_PAGE_SIZE_HALVINGS - halvings)
    {
      var t := env(i);
      ghost var was, r := d, Round(cfg, store, deadlineAt, d, t);
      d, i := r, i + 1;
      if deadlineAt - t.asked <= 0 {
        ending := TimedOut;
        return;
      }
      var admitted := breaker.Admit(t.asked);
      if !admitted {
        ending := Threw(BreakerOpen);
        return;
      }
      breaker.Settle(Verdict(t.reply), t.settled);
      match t.reply
      case Refused(e) =>
        if e.status.DEADLINE_EXCEEDED? && t.caught >= deadlineAt {
          ending := TimedOutMidPage;
          return;
        }
        if PageTooLarge(e) && pageSize > 1 && halvings < MAX_PAGE_SIZE_HALVINGS {
          halvings, pageSize := halvings + 1, Max(1, pageSize / 2);
        } else {
          ending := Threw(Grpc(e));
          return;
        }
      case Sessions(count, trailing) =>
        var from, end := token.Or(0), PageEnd(|store|, token.Or(0), count);
        pagesFetched := pagesFetched + 1;
        if from <= end {
          sessions := sessions + store[from..end];
        }
        if end == |store| && !trailing {
          ending := Complete;
          return;
        }
        token := Some(end);
    }
    ending := PageCap;
    d := d.(ending := Some(PageCap));
  }

  // ---- What a drain returns -------------------------------------------------------------------

  /** The calls made: one a page, one a halving, and one more if a reply ended the drain in an error. */
  function ErrorCalls(e: Option<Ending>): nat {
    if e == Some(TimedOutMidPage) || (e.Some? && e.value.Threw? && e.value.error.Grpc?) then 1 else 0
  }

  /** How often a page size can be halved: down to one, and at most twice. */
  function Ladder(pageSize: nat): nat { if pageSize < 2 then 0 else if pageSize < 4 then 1 else MAX_PAGE_SIZE_HALVINGS }

  function Rung(pageSize: nat, halvings: nat): nat {
    if halvings == 0 then pageSize else if halvings == 1 then pageSize / 2 else pageSize / 4
  }

  ghost predicate Sane<S>(cfg: DrainConfig, store: seq<S>, d: Drain<S>) {
    && d.Offset() <= |store|
    && (if d.ending == Some(Complete) then d.sessions == store else d.sessions == store[..d.Offset()])
    && d.pages <= cfg.maxPages && d.halvings <= Ladder(cfg.pageSize) && d.pageSize == Rung(cfg.pageSize, d.halvings)
    && d.calls == d.pages + d.halvings + ErrorCalls(d.ending)
    && (ErrorCalls(d.ending) > 0 ==> d.pages < cfg.maxPages)
    && d.counted <= d.halvings + ErrorCalls(d.ending)
  }

  lemma {:induction false} RoundSane<S>(cfg: DrainConfig, store: seq<S>, deadlineAt: int, d: Drain<S>, t: Turn)
    requires Sane(cfg, store, d) && d.ending.None?
    ensures Sane(cfg, store, Round(cfg, store, deadlineAt, d, t))
  {
    if t.reply.Sessions? {
      var end := PageEnd(|store|, d.Offset(), t.reply.count);
      assert store[..d.Offset()] + store[d.Offset()..end] == store[..end];
      assert store[..|store|] == store;
    }
  }

  lemma {:induction false} RoundsSane<S>(cfg: DrainConfig, store: seq<S>, deadlineAt: int, env: nat -> Turn,
      d: Drain<S>, i: nat)
    requires Sane(cfg, store, d)
    ensures Sane(cfg, store, Rounds(cfg, store, deadlineAt, env, d, i))
      && Rounds(cfg, store, deadlineAt, env, d, i).ending.Some?
    decreases Max(0, cfg.maxPages - d.pages) + Max(0, MAX_PAGE_SIZE_HALVINGS - d.halvings)
  {
    if d.ending.None? {
      var d' := Round(cfg, store, deadlineAt, d, env(i));
      RoundSane(cfg, store, deadlineAt, d, env(i));
      if d'.ending.None? {
        RoundsSane(cfg, store, deadlineAt, env, d', i + 1);
      }
    }
  }

  /**
   * Whatever the runtime answers and however the page size is halved on the way, a drain ends, what
   * it collected is a prefix of the store with no repeat or skip, `complete` means the whole store,
   * and it makes at most `maxPages + 2` calls, at most three of them counted as failures.
   */
  lemma {:induction false} DrainIsPrefix<S>(cfg: DrainConfig, store: seq<S>, startedAt: int, env: nat -> Turn,
      breaker: Fields)
    ensures var d := Drained(cfg, store, startedAt, env, breaker);
      && d.ending.Some? && d.sessions <= store
      && (d.ending == Some(Complete) ==> d.sessions == store)
      && d.pages <= cfg.maxPages && d.calls <= cfg.maxPages + Ladder(cfg.pageSize) <= cfg.maxPages + 2
      && d.counted <= Ladder(cfg.pageSize) + 1 <= 3
      && d.pageSize == Rung(cfg.pageSize, d.halvings) && (cfg.pageSize >= 1 ==> d.pageSize >= 1)
  {
    RoundsSane(cfg, store, startedAt + cfg.timeoutMs, env, Begin(cfg, breaker), 0);
    var d := Drained(cfg, store, startedAt, env, breaker);
    SaneBounds(cfg, store, d);
  }

  lemma {:induction false} SaneBounds<S>(cfg: DrainConfig, store: seq<S>, d: Drain<S>)
    requires Sane(cfg, store, d)
    ensures d.sessions <= store && (d.ending == Some(Complete) ==> d.sessions == store)
    ensures d.calls <= cfg.maxPages + Ladder(cfg.pageSize) && d.counted <= Ladder(cfg.pageSize) + 1
    ensures cfg.pageSize >= 1 ==> d.pageSize >= 1
  {}

  // ---- Why a drain ends -----------------------------------------------------------------------

  /** Pages, and sessions offered in them, among the first n answers. */
  function Pages(env: nat -> Turn, n: nat): nat {
    if n == 0 then 0 else Pages(env, n - 1) + if env(n - 1).reply.Sessions? then 1 else 0
  }

  function Offered(env: nat -> Turn, n: nat): nat {
    if n == 0 then 0 else Offered(env, n - 1) + if env(n - 1).reply.Sessions? then env(n - 1).reply.count else 0
  }

  lemma {:induction false} FewerPages(env: nat -> Turn, n: nat)
    ensures Pages(env, n) <= n
  {
    if n > 0 { FewerPages(env, n - 1); }
  }

  /** The breaker after the first n calls, each asked and settled. */
  function BreakerAfter(cfg: Config, start: Fields, env: nat -> Turn, n: nat): Fields {
    if n == 0 then start
    else
      var t := env(n - 1);
      Settled(cfg, AfterGetState(cfg, BreakerAfter(cfg, start, env, n - 1), t.asked), Verdict(t.reply), t.settled)
  }

  predicate Admitted(cfg: Config, start: Fields, env: nat -> Turn, n: nat) {
    AfterGetState(cfg, BreakerAfter(cfg, start, env, n), env(n).asked).status != OPEN
  }

  /** After n calls, none of which ended the drain, there is another. */
  predicate Asks(cfg: DrainConfig, deadlineAt: int, start: Fields, env: nat -> Turn, n: nat) {
    Pages(env, n) < cfg.maxPages && env(n).asked < deadlineAt && Admitted(cfg.breaker, start, env, n)
  }

  /** The n-th answer is a page that reaches the end of the store and offers no further one. */
  predicate Finishes<S>(store: seq<S>, env: nat -> Turn, n: nat) {
    env(n).reply.Sessions? && !env(n).reply.trailing && Offered(env, n + 1) >= |store|
  }

  predicate LateDeadline(deadlineAt: int, t: Turn) {
    t.reply.Refused? && t.reply.error.status == DEADLINE_EXCEEDED && t.caught >= deadlineAt
  }

  /** The n-th answer refuses a page as too large, and the page can still be halved. */
  predicate Halves(cfg: DrainConfig, env: nat -> Turn, n: nat) {
    && env(n).reply.Refused? && env(n).reply.error.status == RESOURCE_EXHAUSTED
    && env(n).reply.error.macpCode in {None, Some("PAYLOAD_TOO_LARGE")}
    && n - Pages(env, n) < Ladder(cfg.pageSize)
  }

  /** The n-th answer does not end the drain. */
  predicate Continues<S>(cfg: DrainConfig, store: seq<S>, deadlineAt: int, env: nat -> Turn, n: nat) {
    if env(n).reply.Sessions? then !Finishes(store, env, n) else Halves(cfg, env, n) && !LateDeadline(deadlineAt, env(n))
  }

  /** The first n calls were made, and did not end the drain. */
  ghost predicate Underway<S>(cfg: DrainConfig, store: seq<S>, deadlineAt: int, start: Fields, env: nat -> Turn, n: nat) {
    forall k: nat :: k < n ==> Asks(cfg, deadlineAt, start, env, k) && Continues(cfg, store, deadlineAt, env, k)
  }

  /** The n-th call was the last, and its answer ended the drain. */
  ghost predicate EndsWith<S>(cfg: DrainConfig, store: seq<S>, deadlineAt: int, start: Fields, env: nat -> Turn, n: nat) {
    n > 0 && Underway(cfg, store, deadlineAt, start, env, n - 1) && Asks(cfg, deadlineAt, start, env, n - 1)
  }

  /** Why a drain of n calls ended as it did. */
  ghost predicate Explains<S>(cfg: DrainConfig, store: seq<S>, deadlineAt: int, start: Fields, env: nat -> Turn, n: nat,
      ending: Ending)
  {
    match ending
    case Complete => EndsWith(cfg, store, deadlineAt, start, env, n) && Finishes(store, env, n - 1)
    case PageCap => Underway(cfg, store, deadlineAt, start, env, n) && Pages(env, n) >= cfg.maxPages
    case TimedOut =>
      Underway(cfg, store, deadlineAt, start, env, n) && Pages(env, n) < cfg.maxPages && env(n).asked >= deadlineAt
    case TimedOutMidPage => EndsWith(cfg, store, deadlineAt, start, env, n) && LateDeadline(deadlineAt, env(n - 1))
    case Threw(BreakerOpen) =>
      && Underway(cfg, store, deadlineAt, start, env, n) && Pages(env, n) < cfg.maxPages && env(n).asked < deadlineAt
      && !Admitted(cfg.breaker, start, env, n)
    case Threw(Grpc(e)) =>
      && EndsWith(cfg, store, deadlineAt, start, env, n) && env(n - 1).reply == Refused(e)
      && !LateDeadline(deadlineAt, env(n - 1)) && !Halves(cfg, env, n - 1)
  }

  function Least(a: nat, b: nat): nat { if a < b then a else b }

  /** A drain under way after n calls holds what they offered. */
  ghost predicate Holds<S>(cfg: DrainConfig, store: seq<S>, start: Fields, env: nat -> Turn, d: Drain<S>, n: nat) {
    && d.ending.None? && d.calls == n && d.pages == Pages(env, n) && d.halvings == n - Pages(env, n)
    && d.Offset() == Least(|store|, Offered(env, n)) && d.sessions == store[..d.Offset()]
    && d.halvings <= Ladder(cfg.pageSize) && d.pageSize == Rung(cfg.pageSize, d.halvings)
    && d.breaker == BreakerAfter(cfg.breaker, start, env, n)
  }

  /** What a drain that ended has to show: calls, sessions, and the breaker as the calls left it. */
  ghost predicate Shows<S>(cfg: DrainConfig, store: seq<S>, deadlineAt: int, start: Fields, env: nat -> Turn, d: Drain<S>) {
    && d.ending.Some? && Explains(cfg, store, deadlineAt, start, env, d.calls, d.ending.value)
    && d.sessions == store[..Least(|store|, Offered(env, d.calls))] && d.pages == Pages(env, d.calls)
    && d.breaker == (
      if d.ending == Some(Threw(BreakerOpen))
      then AfterGetState(cfg.breaker, BreakerAfter(cfg.breaker, start, env, d.calls), env(d.calls).asked)
      else BreakerAfter(cfg.breaker, start, env, d.calls))
  }

  lemma {:induction false} OfferedMore<S>(store: seq<S>, env: nat -> Turn, n: nat)
    requires env(n).reply.Sessions?
    ensures var from, to := Least(|store|, Offered(env, n)), Least(|store|, Offered(env, n + 1));
      from <= to && to == PageEnd(|store|, from, env(n).reply.count) && store[..from] + store[from..to] == store[..to]
  {}

  lemma {:induction false} NotAsked<S>(cfg: DrainConfig, store: seq<S>, deadlineAt: int, start: Fields,
      env: nat -> Turn, d: Drain<S>, n: nat)
    requires Holds(cfg, store, start, env, d, n) && Underway(cfg, store, deadlineAt, start, env, n)
    requires !Asks(cfg, deadlineAt, start, env, n)
    ensures Shows(cfg, store, deadlineAt, start, env, Round(cfg, store, deadlineAt, d, env(n)))
  {}

  /** A call let through: the breaker settled, one more call made. */
  lemma {:induction false} Asked<S>(cfg: DrainConfig, store: seq<S>, deadlineAt: int, start: Fields,
      env: nat -> Turn, d: Drain<S>, n: nat) returns (called: Drain<S>)
    requires Holds(cfg, store, start, env, d, n) && Asks(cfg, deadlineAt, start, env, n)
    ensures called == d.(breaker := BreakerAfter(cfg.breaker, start, env, n + 1), calls := n + 1, counted := called.counted)
    ensures Round(cfg, store, deadlineAt, d, env(n)) == Answered(store, deadlineAt, called, env(n))
  {
    called := d.(breaker := BreakerAfter(cfg.breaker, start, env, n + 1), calls := n + 1,
                 counted := d.counted + if Verdict(env(n).reply) == Failure then 1 else 0);
  }

  lemma {:induction false} OneFurther<S>(cfg: DrainConfig, store: seq<S>, deadlineAt: int, start: Fields, env: nat -> Turn,
      n: nat)
    requires Underway(cfg, store, deadlineAt, start, env, n) && Asks(cfg, deadlineAt, start, env, n)
    ensures EndsWith(cfg, store, deadlineAt, start, env, n + 1)
    ensures Continues(cfg, store, deadlineAt, env, n) ==> Underway(cfg, store, deadlineAt, start, env, n + 1)
  {}

  lemma {:induction false} PageHolds<S>(cfg: DrainConfig, store: seq<S>, deadlineAt: int, start: Fields,
      env: nat -> Turn, d: Drain<S>, n: nat)
    requires Holds(cfg, store, start, env, d, n) && Underway(cfg, store, deadlineAt, start, env, n)
    requires Asks(cfg, deadlineAt, start, env, n) && env(n).reply.Sessions? && Pages(env, n) <= n
    ensures var d' := Round(cfg, store, deadlineAt, d, env(n));
      if d'.ending.Some? then Shows(cfg, store, deadlineAt, start, env, d')
      else Holds(cfg, store, start, env, d', n + 1) && Underway(cfg, store, deadlineAt, start, env, n + 1)
  {
    OfferedMore(store, env, n);
    OneFurther(cfg, store, deadlineAt, start, env, n);
    var called := Asked(cfg, store, deadlineAt, start, env, d, n);
  }

  lemma {:induction false} RefusalHolds<S>(cfg: DrainConfig, store: seq<S>, deadlineAt: int, start: Fields,
      env: nat -> Turn, d: Drain<S>, n: nat)
    requires Holds(cfg, store, start, env, d, n) && Underway(cfg, store, deadlineAt, start, env, n)
    requires Asks(cfg, deadlineAt, start, env, n) && env(n).reply.Refused? && Pages(env, n) <= n
    ensures var d' := Round(cfg, store, deadlineAt, d, env(n));
      if d'.ending.Some? then Shows(cfg, store, deadlineAt, start, env, d')
      else Holds(cfg, store, start, env, d', n + 1) && Underway(cfg, store, deadlineAt, start, env, n + 1)
  {
    OneFurther(cfg, store, deadlineAt, start, env, n);
    var called := Asked(cfg, store, deadlineAt, start, env, d, n);
    assert PageTooLarge(env(n).reply.error) && d.pageSize > 1 && d.halvings < MAX_PAGE_SIZE_HALVINGS <==> Halves(cfg, env, n);
  }

  /** Ended as it had to, or one call further. */
  ghost predicate Advances<S>(cfg: DrainConfig, store: seq<S>, deadlineAt: int, start: Fields, env: nat -> Turn,
      d: Drain<S>, n: nat)
  {
    if d.ending.Some? then Shows(cfg, store, deadlineAt, start, env, d)
    else Holds(cfg, store, start, env, d, n) && Underway(cfg, store, deadlineAt, start, env, n)
  }

  lemma {:induction false} RoundHolds<S>(cfg: DrainConfig, store: seq<S>, deadlineAt: int, start: Fields,
      env: nat -> Turn, d: Drain<S>, n: nat)
    requires d.ending.None? && Advances(cfg, store, deadlineAt, start, env, d, n)
    ensures Advances(cfg, store, deadlineAt, start, env, Round(cfg, store, deadlineAt, d, env(n)), n + 1)
  {
    FewerPages(env, n);
    if !Asks(cfg, deadlineAt, start, env, n) {
      NotAsked(cfg, store, deadlineAt, start, env, d, n);
    } else if env(n).reply.Sessions? {
      PageHolds(cfg, store, deadlineAt, start, env, d, n);
    } else {
      RefusalHolds(cfg, store, deadlineAt, start, env, d, n);
    }
  }

  /** What every pass of the loop keeps holds when it ends. */
  lemma {:induction false} RoundsKeep<S(!new)>(cfg: DrainConfig, store: seq<S>, deadlineAt: int, env: nat -> Turn,
      d: Drain<S>, i: nat, kept: (Drain<S>, nat) -> bool) returns (n: nat)
    requires kept(d, i)
    requires forall x: Drain<S>, k: nat :: x.ending.None? && kept(x, k) ==> kept(Round(cfg, store, deadlineAt, x, env(k)), k + 1)
    ensures var r := Rounds(cfg, store, deadlineAt, env, d, i); kept(r, n) && r.ending.Some?
    decreases Max(0, cfg.maxPages - d.pages) + Max(0, MAX_PAGE_SIZE_HALVINGS - d.halvings)
  {
    n := i;
    if d.ending.None? {
      var d' := Round(cfg, store, deadlineAt, d, env(i));
      n := i + 1;
      if d'.ending.None? { n := RoundsKeep(cfg, store, deadlineAt, env, d', i + 1, kept); }
    }
  }

  /** For every sequence of answers: how many calls there were, what they gave, and exactly why there were no more. */
  lemma {:induction false} DrainExplained<S(!new)>(cfg: DrainConfig, store: seq<S>, startedAt: int, env: nat -> Turn,
      start: Fields)
    ensures Shows(cfg, store, startedAt + cfg.timeoutMs, start, env, Drained(cfg, store, startedAt, env, start))
  {
    var deadlineAt := startedAt + cfg.timeoutMs;
    var kept := (d: Drain<S>, n: nat) => Advances(cfg, store, deadlineAt, start, env, d, n);
    forall d: Drain<S>, n: nat | d.ending.None? && kept(d, n) ensures kept(Round(cfg, store, deadlineAt, d, env(n)), n + 1) {
      RoundHolds(cfg, store, deadlineAt, start, env, d, n);
    }
    var n := RoundsKeep(cfg, store, deadlineAt, env, Begin(cfg, start), 0, kept);
  }

  /** Either the next call is not made, or the last one ended the drain. */
  lemma {:induction false} LastCall<S>(cfg: DrainConfig, store: seq<S>, deadlineAt: int, start: Fields, env: nat -> Turn,
      m: nat, ending: Ending)
    requires Explains(cfg, store, deadlineAt, start, env, m, ending)
    ensures || (Underway(cfg, store, deadlineAt, start, env, m) && !Asks(cfg, deadlineAt, start, env, m))
            || (EndsWith(cfg, store, deadlineAt, start, env, m) && !Continues(cfg, store, deadlineAt, env, m - 1))
  {}

  /** No two ways to end: where a page finishes the store, the drain is complete. */
  lemma {:induction false} OneEnd<S>(cfg: DrainConfig, store: seq<S>, deadlineAt: int, start: Fields, env: nat -> Turn,
      n: nat, m: nat, ending: Ending)
    requires EndsWith(cfg, store, deadlineAt, start, env, n) && Finishes(store, env, n - 1)
    requires Explains(cfg, store, deadlineAt, start, env, m, ending)
    ensures m == n && ending == Complete
  {
    assert !Continues(cfg, store, deadlineAt, env, n - 1);
    LastCall(cfg, store, deadlineAt, start, env, m, ending);
  }

  /**
   * A drain is complete if and only if it comes to a page that reaches the end of the store and offers
   * no further one; then it holds the whole store, and that page is the last it asks for.
   */
  lemma {:induction false} CompleteIff<S(!new)>(cfg: DrainConfig, store: seq<S>, startedAt: int, env: nat -> Turn, start: Fields)
    ensures var d, deadlineAt := Drained(cfg, store, startedAt, env, start), startedAt + cfg.timeoutMs;
      && (d.ending == Some(Complete) <==>
            exists n: nat :: EndsWith(cfg, store, deadlineAt, start, env, n) && Finishes(store, env, n - 1))
      && (d.ending == Some(Complete) ==> d.sessions == store && EndsWith(cfg, store, deadlineAt, start, env, d.calls))
  {
    DrainExplained(cfg, store, startedAt, env, start);
    EndsOnce(cfg, store, startedAt + cfg.timeoutMs, start, env, Drained(cfg, store, startedAt, env, start));
  }

  lemma {:induction false} EndsOnce<S>(cfg: DrainConfig, store: seq<S>, deadlineAt: int, start: Fields, env: nat -> Turn,
      d: Drain<S>)
    requires Shows(cfg, store, deadlineAt, start, env, d)
    ensures d.ending == Some(Complete) <==>
            exists n: nat :: EndsWith(cfg, store, deadlineAt, start, env, n) && Finishes(store, env, n - 1)
    ensures d.ending == Some(Complete) ==> d.sessions == store && EndsWith(cfg, store, deadlineAt, start, env, d.calls)
  {
    assert store[..|store|] == store;
    if n: nat :| EndsWith(cfg, store, deadlineAt, start, env, n) && Finishes(store, env, n - 1) {
      OneEnd(cfg, store, deadlineAt, start, env, n, d.calls, d.ending.value);
    }
  }

  /** Every answer is a page, in time, without a token past the end. */
  ghost predicate Healthy(deadlineAt: int, env: nat -> Turn) {
    forall n: nat :: env(n).reply.Sessions? && !env(n).reply.trailing && env(n).asked < deadlineAt
  }

  /**
   * So a healthy runtime whose pages cover the store within the page cap is drained completely, with
   * no call after the first page that reaches the end.
   */
  lemma {:induction false} HealthyDrainCompletes<S(!new)>(cfg: DrainConfig, store: seq<S>, startedAt: int, env: nat -> Turn,
      start: Fields, n: nat)
    requires start.status == CLOSED && Healthy(startedAt + cfg.timeoutMs, env)
    requires 0 < n <= cfg.maxPages && Offered(env, n) >= |store|
    requires forall k: nat :: 0 < k < n ==> Offered(env, k) < |store|
    ensures var d := Drained(cfg, store, startedAt, env, start); d.ending == Some(Complete) && d.sessions == store && d.calls == n
  {
    var deadlineAt := startedAt + cfg.timeoutMs;
    var d := Drained(cfg, store, startedAt, env, start);
    forall k: nat | k < n ensures Asks(cfg, deadlineAt, start, env, k) && (k < n - 1 ==> !Finishes(store, env, k)) {
      AllPages(cfg, start, deadlineAt, env, k);
    }
    assert EndsWith(cfg, store, deadlineAt, start, env, n) && Finishes(store, env, n - 1);
    CompleteIff(cfg, store, startedAt, env, start);
    DrainExplained(cfg, store, startedAt, env, start);
    OneEnd(cfg, store, deadlineAt, start, env, n, d.calls, d.ending.value);
  }

  lemma {:induction false} AllPages(cfg: DrainConfig, start: Fields, deadlineAt: int, env: nat -> Turn, n: nat)
    requires start.status == CLOSED && Healthy(deadlineAt, env)
    ensures Pages(env, n) == n && BreakerAfter(cfg.breaker, start, env, n).status == CLOSED
  {
    if n > 0 { AllPages(cfg, start, deadlineAt, env, n - 1); }
  }

  // ---- What a drain does to the breaker -------------------------------------------------------

  /** Still closed, with nothing recorded, and no more failures on the books than this drain caused. */
  ghost predicate Unharmed<S>(start: Fields, d: Drain<S>) {
    d.breaker.status == CLOSED && d.breaker.history == start.history && d.breaker.failureCount <= d.counted
  }

  lemma {:induction false} RoundsUnharmed<S>(cfg: DrainConfig, store: seq<S>, deadlineAt: int, env: nat -> Turn,
      d: Drain<S>, i: nat, start: Fields)
    requires Sane(cfg, store, d) && Unharmed(start, d) && cfg.breaker.failureThreshold >= Ladder(cfg.pageSize) + 2
    ensures Unharmed(start, Rounds(cfg, store, deadlineAt, env, d, i))
    decreases Max(0, cfg.maxPages - d.pages) + Max(0, MAX_PAGE_SIZE_HALVINGS - d.halvings)
  {
    if d.ending.None? {
      var d' := Round(cfg, store, deadlineAt, d, env(i));
      RoundSane(cfg, store, deadlineAt, d, env(i));
      assert Unharmed(start, d');
      if d'.ending.None? {
        RoundsUnharmed(cfg, store, deadlineAt, env, d', i + 1, start);
      }
    }
  }

  /** Every refusal is one that says nothing about the runtime's health. */
  ghost predicate OnlyHealthyRefusals(env: nat -> Turn) { forall i: nat :: Verdict(env(i).reply) != Failure }

  lemma {:induction false} RoundsUncounted<S>(cfg: DrainConfig, store: seq<S>, deadlineAt: int, env: nat -> Turn,
      d: Drain<S>, i: nat)
    requires OnlyHealthyRefusals(env) && d.breaker.status == CLOSED
    ensures var r := Rounds(cfg, store, deadlineAt, env, d, i);
      r.counted == d.counted && r.breaker.status == CLOSED && r.breaker.history == d.breaker.history
      && r.breaker.failureCount <= d.breaker.failureCount
    decreases Max(0, cfg.maxPages - d.pages) + Max(0, MAX_PAGE_SIZE_HALVINGS - d.halvings)
  {
    if d.ending.None? {
      assert Verdict(env(i).reply) != Failure;
      var d' := Round(cfg, store, deadlineAt, d, env(i));
      if d'.ending.None? {
        RoundsUncounted(cfg, store, deadlineAt, env, d', i + 1);
      }
    }
  }

  /**
   * Refusals of a healthy runtime never count, whatever the threshold: not found, permission
   * denied, and coded refusals such as an oversized page reported as PAYLOAD_TOO_LARGE.
   */
  lemma {:induction false} HealthyRefusalsNeverCount<S>(cfg: DrainConfig, store: seq<S>, startedAt: int,
      env: nat -> Turn, start: Fields)
    requires start.status == CLOSED && OnlyHealthyRefusals(env)
    ensures var d := Drained(cfg, store, startedAt, env, start);
      d.counted == 0 && d.breaker.status == CLOSED && d.breaker.history == start.history
    ensures !IsExpected(GrpcError(RESOURCE_EXHAUSTED, None))
      && IsExpected(GrpcError(RESOURCE_EXHAUSTED, Some("PAYLOAD_TOO_LARGE")))
    ensures IsExpected(GrpcError(NOT_FOUND, None)) && IsExpected(GrpcError(PERMISSION_DENIED, None))
    ensures forall e: GrpcError :: e.status in {UNAVAILABLE, DEADLINE_EXCEEDED, INTERNAL, UNKNOWN, DATA_LOSS} ==> !IsExpected(e)
    ensures forall e: GrpcError :: e.macpCode in {None, Some("INTERNAL_ERROR"), Some("STREAM_LAGGED")} ==>
      (IsExpected(e) <==> e.status in {NOT_FOUND, PERMISSION_DENIED})
    ensures forall status: GrpcStatus, code: string ::
      !IsExpected(GrpcError(status, Some(code))) ==>
        status in {UNAVAILABLE, DEADLINE_EXCEEDED, INTERNAL, UNKNOWN, DATA_LOSS} || code in {"INTERNAL_ERROR", "STREAM_LAGGED"}
  {
    RoundsUncounted(cfg, store, startedAt + cfg.timeoutMs, env, Begin(cfg, start), 0);
    assert "PAYLOAD_TOO_LARGE"[0] == 'P' && "INTERNAL_ERROR"[0] == 'I' && "STREAM_LAGGED"[0] == 'S';
  }

  function Oversized(i: nat): Turn { Turn(0, 0, 0, Refused(GrpcError(RESOURCE_EXHAUSTED, None))) }

  /**
   * One drain never opens a closed breaker that has no failures on its books, whatever the runtime
   * answers, exactly when the threshold exceeds the length of the halving ladder plus one: at least 4
   * for any page size from 4 up.  Below that, a run of oversized pages opens it.
   */
  lemma {:induction false} DrainSparesBreakerIff<S(!new)>(cfg: DrainConfig, store: seq<S>, start: Fields)
    requires start.status == CLOSED && start.failureCount == 0
    requires cfg.maxPages >= 1 && cfg.timeoutMs >= 1
    ensures cfg.breaker.failureThreshold >= Ladder(cfg.pageSize) + 2
       <==> forall startedAt: int, env: nat -> Turn :: Unharmed(start, Drained(cfg, store, startedAt, env, start))
  {
    if cfg.breaker.failureThreshold >= Ladder(cfg.pageSize) + 2 {
      forall startedAt: int, env: nat -> Turn ensures Unharmed(start, Drained(cfg, store, startedAt, env, start)) {
        RoundsUnharmed(cfg, store, startedAt + cfg.timeoutMs, env, Begin(cfg, start), 0, start);
      }
    } else {
      OversizedOpens(cfg, store, start);
    }
  }

  lemma {:induction false} OversizedOpens<S>(cfg: DrainConfig, store: seq<S>, start: Fields)
    requires start.status == CLOSED && start.failureCount == 0
    requires cfg.maxPages >= 1 && cfg.timeoutMs >= 1 && cfg.breaker.failureThreshold <= Ladder(cfg.pageSize) + 1
    ensures !Unharmed(start, Drained(cfg, store, 0, Oversized, start))
  {
    OversizedRounds(cfg, store, Begin(cfg, start), 0);
  }

  lemma {:induction false} OversizedRounds<S>(cfg: DrainConfig, store: seq<S>, d: Drain<S>, i: nat)
    requires cfg.maxPages >= 1 && cfg.timeoutMs >= 1 && cfg.breaker.failureThreshold <= Ladder(cfg.pageSize) + 1
    requires d.ending.None? && d.pages == 0 && d.halvings <= Ladder(cfg.pageSize)
      && d.breaker.failureCount == d.halvings
    requires d.pageSize == Rung(cfg.pageSize, d.halvings)
    requires d.breaker.status == CLOSED <==> d.halvings == 0 || d.halvings < cfg.breaker.failureThreshold
    ensures Rounds(cfg, store, cfg.timeoutMs, Oversized, d, i).breaker.status != CLOSED
    decreases MAX_PAGE_SIZE_HALVINGS - d.halvings
  {
    var d' := Round(cfg, store, cfg.timeoutMs, d, Oversized(i));
    if d'.ending.None? {
      OversizedRounds(cfg, store, d', i + 1);
    }
  }
}
