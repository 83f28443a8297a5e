/**
 * The resumable ingest protocol: one run, one live consumer of its per-session envelope stream,
 * and everything that can happen to it (section 3.2 of RFC-MACP-0006: `after_sequence`).
 *
 * Transactions are atomic here; `Interleaving.Serializable` is why they may be.
 */
module Ingest {
  import opened Prelude
  import opened Events
  import opened Tables
  import opened Cache

  /** What the runtime holds: every accepted envelope, of which those before `base` can no longer be replayed. */
  datatype Runtime = Runtime(history: seq<Envelope>, base: nat)

  /** A live subscription: the next envelope the runtime will send, and the frames waiting in the client queue. */
  datatype Subscription = Subscription(next: nat, queue: seq<RawEvent>)

  /** The in-memory marker of a running consumer. */
  datatype Consumer = Consumer(ordinal: nat, stream: Option<Subscription>, historyGap: bool)

  datatype System<C> = System(runtime: Runtime, t: Tables<C>, consumer: Option<Consumer>)

  datatype Action =
    | Append(envelope: Envelope)
    | Compact(base: nat)
    | Send
    | SendOther(raw: RawEvent)
    | Consume(drafts: seq<Event>)
    | ConsumeAborts
    | Disconnect
    | Resubscribe
    | Gap(drafts: seq<Event>)
    | Poll(state: SessionState, drafts: seq<Event>)
    | Crash
    | Recover(drafts: seq<Event>)
    | Bind
    | OtherWriter(job: Job)

  /** Transactions of everyone else: control-plane events, rebuilds and ambient signals, which carry no cursor. */
  predicate Foreign(job: Job) { job.Persist? ==> job.source.Ambient? && job.ordinal.None? }

  predicate Streaming(c: Option<Consumer>) { c.Some? && c.value.stream.Some? }
  predicate Idle(c: Option<Consumer>) { c.Some? && c.value.stream.None? }

  /** `marker.envelopeOrdinal + (isEnvelope ? 1 : 0)`. */
  function NextOrdinal(ordinal: nat, raw: RawEvent): nat { ordinal + if raw.StreamEnvelope? then 1 else 0 }

  predicate Enabled<C>(s: System<C>, a: Action) {
    match a
    case Append(_) => true
    case Compact(base) => s.runtime.base <= base <= |s.runtime.history|
    case Send => Streaming(s.consumer) && s.consumer.value.stream.value.next < |s.runtime.history|
    case SendOther(raw) => Streaming(s.consumer) && !raw.StreamEnvelope?
    case Consume(_) => Streaming(s.consumer) && s.consumer.value.stream.value.queue != []
    case ConsumeAborts => Streaming(s.consumer) && s.consumer.value.stream.value.queue != []
    case Disconnect => Streaming(s.consumer)
    case Resubscribe => Idle(s.consumer) && !s.consumer.value.historyGap && s.runtime.base <= s.consumer.value.ordinal
    case Gap(_) => Idle(s.consumer) && !s.consumer.value.historyGap && s.consumer.value.ordinal < s.runtime.base
    case Poll(_, _) => Idle(s.consumer)
    case Crash => s.consumer.Some?
    case Recover(_) => s.consumer.None?
    case Bind => true
    case OtherWriter(job) => Foreign(job)
  }

  function Step<C>(runId: string, red: Reducer<C>, s: System<C>, a: Action): System<C>
    requires Enabled(s, a)
  {
    match a
    case Append(envelope) => s.(runtime := s.runtime.(history := s.runtime.history + [envelope]))
    case Compact(base) => s.(runtime := s.runtime.(base := base))
    case Send =>
      var sub := s.consumer.value.stream.value;
      var frame := StreamEnvelope(s.runtime.history[sub.next]);
      s.(consumer := Some(s.consumer.value.(stream := Some(Subscription(sub.next + 1, sub.queue + [frame])))))
    case SendOther(raw) =>
      var sub := s.consumer.value.stream.value;
      s.(consumer := Some(s.consumer.value.(stream := Some(sub.(queue := sub.queue + [raw])))))
    case Consume(drafts) =>
      var c := s.consumer.value;
      var sub := c.stream.value;
      var ordinal := NextOrdinal(c.ordinal, sub.queue[0]);
      s.(t := Atomic(runId, red, s.t, Persist(sub.queue[0], SessionStream, drafts, Some(ordinal))),
         consumer := Some(c.(ordinal := ordinal, stream := Some(sub.(queue := sub.queue[1..])))))
    // The transaction rolled back: the error leaves the stream loop, and the ordinal stays where it was.
    case ConsumeAborts => s.(consumer := Some(s.consumer.value.(stream := None)))
    case Disconnect => s.(consumer := Some(s.consumer.value.(stream := None)))
    case Resubscribe =>
      var c := s.consumer.value;
      s.(consumer := Some(c.(stream := Some(Subscription(c.ordinal, [StreamStatus("opened")])))))
    case Gap(drafts) =>
      s.(t := Atomic(runId, red, s.t, Emit(drafts)), consumer := Some(s.consumer.value.(historyGap := true)))
    case Poll(state, drafts) =>
      s.(t := Atomic(runId, red, s.t, Persist(SessionSnapshot(state), SessionStream, drafts, Some(s.consumer.value.ordinal))))
    case Crash => s.(consumer := None)
    case Recover(drafts) =>
      s.(t := Atomic(runId, red, s.t, Emit(drafts)),
         consumer := Some(Consumer(if s.t.session.Some? then s.t.session.value.lastEnvelopeOrdinal else 0, None, false)))
    // The session row's upsert: a new row starts at 0, an existing one keeps its cursors.
    case Bind => s.(t := s.t.(session := s.t.session.OrElse(Some(SessionRow(None, 0)))))
    case OtherWriter(job) => s.(t := Atomic(runId, red, s.t, job))
  }

  /** A run starts with its session bound (or not), nothing ingested and no consumer. */
  function Begin<C>(bound: bool): System<C> {
    System(Runtime([], 0), Tables(0, map[], map[], None, if bound then Some(SessionRow(None, 0)) else None), None)
  }

  ghost predicate Runs<C>(runId: string, red: Reducer<C>, s: System<C>, actions: seq<Action>, s': System<C>)
    decreases |actions|
  {
    if actions == [] then s' == s
    else Enabled(s, actions[0]) && Runs(runId, red, Step(runId, red, s, actions[0]), actions[1..], s')
  }

  // ---- The invariant --------------------------------------------------------------------------

  function EnvelopesOf(q: seq<RawEvent>): seq<Envelope> {
    if q == [] then [] else (if q[0].StreamEnvelope? then [q[0].envelope] else []) + EnvelopesOf(q[1..])
  }

  /** The stored session-stream envelopes, in seq order, are exactly the first n of the runtime's history. */
  ghost predicate IngestedExactly<C>(s: System<C>, n: nat) {
    n <= |s.runtime.history| && StoredEnvelopes(s.t) == s.runtime.history[..n]
  }

  ghost predicate Invariant<C>(s: System<C>) {
    && SeqsConserved(s.t)
    && s.t.session.Some?
    && var n := s.t.session.value.lastEnvelopeOrdinal;
       && IngestedExactly(s, n)
       && (s.consumer.Some? ==> s.consumer.value.ordinal == n)
       && (Streaming(s.consumer) ==>
             var sub := s.consumer.value.stream.value;
             n <= sub.next <= |s.runtime.history| && EnvelopesOf(sub.queue) == s.runtime.history[n..sub.next])
  }

  lemma {:induction false} EnvelopesAppend(q: seq<RawEvent>, raw: RawEvent)
    ensures EnvelopesOf(q + [raw]) == EnvelopesOf(q) + if raw.StreamEnvelope? then [raw.envelope] else []
  {
    var r := q + [raw];
    if q == [] {
      assert r == [raw] && r[1..] == [];
    } else {
      assert r[0] == q[0] && r[1..] == q[1..] + [raw];
      EnvelopesAppend(q[1..], raw);
      var h := if q[0].StreamEnvelope? then [q[0].envelope] else [];
      var t := if raw.StreamEnvelope? then [raw.envelope] else [];
      assert h + (EnvelopesOf(q[1..]) + t) == (h + EnvelopesOf(q[1..])) + t;
    }
  }

  lemma {:induction false} EnvelopesAgree(raw: map<nat, RawRow>, raw': map<nat, RawRow>, n: nat)
    requires forall k :: 1 <= k <= n ==> (k in raw <==> k in raw') && (k in raw ==> raw[k] == raw'[k])
    ensures EnvelopesUpTo(raw, n) == EnvelopesUpTo(raw', n)
  {
    if n > 0 {
      EnvelopesAgree(raw, raw', n - 1);
    }
  }

  lemma {:induction false} EnvelopesGap(raw: map<nat, RawRow>, n: nat, m: nat)
    requires n <= m && forall k :: k in raw ==> k <= n
    ensures EnvelopesUpTo(raw, m) == EnvelopesUpTo(raw, n)
    decreases m
  {
    if n < m {
      EnvelopesGap(raw, n, m - 1);
    }
  }

  lemma {:induction false} KeysBounded<C>(t: Tables<C>)
    requires SeqsConserved(t)
    ensures forall k :: k in t.raw ==> k <= t.lastEventSeq
  {}

  /** A committed raw event adds exactly its own envelope, if it is one of this stream. */
  lemma {:induction false} PersistStores<C>(runId: string, red: Reducer<C>, t: Tables<C>, job: Job)
    requires SeqsConserved(t) && job.Persist?
    ensures var r := Atomic(runId, red, t, job);
            && SeqsConserved(r)
            && StoredEnvelopes(r) == StoredEnvelopes(t)
                 + if job.source.SessionStream? && job.raw.StreamEnvelope? then [job.raw.envelope] else []
  {
    PersistConserves(runId, red, t, job);
    KeysBounded(t);
    InsertedEnvelope(t.raw, t.lastEventSeq, RawRow(t.lastEventSeq + 1, job.source, job.raw), t.lastEventSeq + 1 + |job.drafts|);
  }

  lemma {:induction false} InsertedEnvelope(raw: map<nat, RawRow>, n: nat, row: RawRow, m: nat)
    requires n < m && forall k :: k in raw ==> k <= n
    ensures EnvelopesUpTo(raw[n + 1 := row], m)
         == EnvelopesUpTo(raw, n) + if row.source.SessionStream? && row.raw.StreamEnvelope? then [row.raw.envelope] else []
  {
    EnvelopesAgree(raw, raw[n + 1 := row], n);
    EnvelopesGap(raw[n + 1 := row], n + 1, m);
  }

  lemma {:induction false} OthersStoreNothing<C>(runId: string, red: Reducer<C>, t: Tables<C>, job: Job)
    requires SeqsConserved(t) && Foreign(job)
    ensures var r := Atomic(runId, red, t, job);
            SeqsConserved(r) && StoredEnvelopes(r) == StoredEnvelopes(t) && r.session == t.session
  {
    var r := Atomic(runId, red, t, job);
    match job
    case Persist(_, _, _, _) => PersistStores(runId, red, t, job);
    case Emit(drafts) =>
      EmitConserves(runId, red, t, drafts);
      KeysBounded(t);
      EnvelopesGap(t.raw, t.lastEventSeq, r.lastEventSeq);
    case Rebuild =>
  }

  lemma {:induction false} ConsumeKeeps<C>(runId: string, red: Reducer<C>, s: System<C>, drafts: seq<Event>)
    requires Invariant(s) && Enabled(s, Consume(drafts))
    ensures Invariant(Step(runId, red, s, Consume(drafts)))
  {
    var c := s.consumer.value;
    var sub := c.stream.value;
    var raw := sub.queue[0];
    var job := Persist(raw, SessionStream, drafts, Some(NextOrdinal(c.ordinal, raw)));
    PersistStores(runId, red, s.t, job);
    TakeHead(s.runtime.history, c.ordinal, sub.next, sub.queue);
  }

  /** The head of the queue is the next envelope of the history, if it is an envelope at all. */
  lemma {:induction false} TakeHead(history: seq<Envelope>, n: nat, next: nat, queue: seq<RawEvent>)
    requires n <= next <= |history| && queue != [] && EnvelopesOf(queue) == history[n..next]
    ensures if queue[0].StreamEnvelope?
      then n < next && EnvelopesOf(queue[1..]) == history[n + 1..next] && history[..n] + [queue[0].envelope] == history[..n + 1]
      else EnvelopesOf(queue[1..]) == history[n..next]
  {
    var rest := EnvelopesOf(queue[1..]);
    if queue[0].StreamEnvelope? {
      var all := [queue[0].envelope] + rest;
      assert all == history[n..next] && all[1..] == rest && all[0] == history[n];
      assert history[n..next][1..] == history[n + 1..next];
    } else {
      assert [] + rest == rest;
    }
  }

  lemma {:induction false} StepKeeps<C>(runId: string, red: Reducer<C>, s: System<C>, a: Action)
    requires Invariant(s) && Enabled(s, a)
    ensures Invariant(Step(runId, red, s, a))
  {
    match a
    case Append(envelope) =>
      AcceptKeeps(s, envelope);
    case Send =>
      var sub := s.consumer.value.stream.value;
      EnvelopesAppend(sub.queue, StreamEnvelope(s.runtime.history[sub.next]));
    case SendOther(raw) => EnvelopesAppend(s.consumer.value.stream.value.queue, raw);
    case Consume(drafts) => ConsumeKeeps(runId, red, s, drafts);
    case Resubscribe =>
      assert EnvelopesOf([StreamStatus("opened")]) == [];
    case Gap(drafts) => OthersStoreNothing(runId, red, s.t, Emit(drafts));
    case Poll(state, drafts) =>
      var job := Persist(SessionSnapshot(state), SessionStream, drafts, Some(s.consumer.value.ordinal));
      PersistStores(runId, red, s.t, job);
    case Recover(drafts) => OthersStoreNothing(runId, red, s.t, Emit(drafts));
    case OtherWriter(job) => OthersStoreNothing(runId, red, s.t, job);
    case Bind =>
    case Compact(_) =>
    case ConsumeAborts =>
    case Disconnect =>
    case Crash =>
  }

  lemma {:induction false} AcceptKeeps<C>(s: System<C>, envelope: Envelope)
    requires Invariant(s)
    ensures Invariant(s.(runtime := s.runtime.(history := s.runtime.history + [envelope])))
  {
    var h, h' := s.runtime.history, s.runtime.history + [envelope];
    var n := s.t.session.value.lastEnvelopeOrdinal;
    assert h'[..n] == h[..n];
    if Streaming(s.consumer) {
      var m := s.consumer.value.stream.value.next;
      assert h'[n..m] == h[n..m];
    }
  }

  lemma {:induction false} BeginOk<C>()
    ensures Invariant(Begin<C>(true))
  {}

  /**
   * Exactly-once ingest: for a bound run, after every interleaving of deliveries, commits, aborts,
   * disconnects, resubscriptions, crashes, recoveries, compaction gaps, polls, re-binds and other
   * writers, the stored envelopes are the first `last_envelope_ordinal` envelopes of the runtime's
   * history (none twice, none missing, none out of order), and the ordinal in memory is the stored
   * one.
   */
  lemma {:induction false} ExactlyOnce<C>(runId: string, red: Reducer<C>, s: System<C>, actions: seq<Action>,
      s': System<C>)
    requires Invariant(s) && Runs(runId, red, s, actions, s')
    ensures Invariant(s')
    decreases |actions|
  {
    if actions != [] {
      StepKeeps(runId, red, s, actions[0]);
      ExactlyOnce(runId, red, Step(runId, red, s, actions[0]), actions[1..], s');
    }
  }

  /** Every run that starts this way has ingested a prefix of the history, whatever happened to it. */
  ghost predicate AlwaysAPrefix<C(!new)>(runId: string, red: Reducer<C>, bound: bool) {
    forall actions: seq<Action>, s: System<C> ::
      Runs(runId, red, Begin<C>(bound), actions, s) ==> exists n: nat :: IngestedExactly(s, n)
  }

  /**
   * Binding is what makes it so: without a `runtime_sessions` row the ordinal is never stored, a
   * recovery starts again from 0, and the first envelope is ingested twice.
   */
  lemma {:induction false} ExactlyOnceIffBound<C(!new)>(runId: string, red: Reducer<C>, bound: bool, e: Envelope)
    ensures AlwaysAPrefix(runId, red, bound) <==> bound
  {
    if bound {
      BeginOk<C>();
      forall actions: seq<Action>, s: System<C> | Runs(runId, red, Begin<C>(bound), actions, s)
        ensures exists n: nat :: IngestedExactly(s, n)
      {
        ExactlyOnce(runId, red, Begin<C>(true), actions, s);
        assert IngestedExactly(s, s.t.session.value.lastEnvelopeOrdinal);
      }
    } else {
      var s, actions := IngestedTwice(runId, red, e);
      assert Runs(runId, red, Begin<C>(bound), actions, s);
      forall n: nat ensures !IngestedExactly(s, n) {
        if n <= |s.runtime.history| {
          assert |s.runtime.history[..n]| <= 1;
        }
      }
    }
  }

  /** From an unbound run's idle state: recover (at 0, for want of a stored ordinal) and subscribe. */
  lemma {:induction false} Reattach<C>(runId: string, red: Reducer<C>, s: System<C>) returns (s': System<C>)
    requires SeqsConserved(s.t) && s.t.session.None? && |s.runtime.history| == 1 && s.runtime.base == 0
      && s.consumer == None
    ensures Runs(runId, red, s, [Recover([]), Resubscribe, Send], s')
    ensures SeqsConserved(s'.t) && s'.t.session.None? && s'.runtime == s.runtime
      && StoredEnvelopes(s'.t) == StoredEnvelopes(s.t)
    ensures s'.consumer == Some(Consumer(0, Some(Subscription(1, [StreamStatus("opened"), StreamEnvelope(s.runtime.history[0])])), false))
  {
    OthersStoreNothing(runId, red, s.t, Emit([]));
    var a := [Recover([]), Resubscribe, Send];
    var s1 := Step(runId, red, s, a[0]);
    var s2 := Step(runId, red, s1, a[1]);
    s' := Step(runId, red, s2, a[2]);
    assert s'.consumer.value.stream.value.queue == [StreamStatus("opened"), StreamEnvelope(s.runtime.history[0])];
    RunsThree(runId, red, s, s1, s2, s', a);
  }

  /** Both queued frames commit, then the process dies. */
  lemma {:induction false} IngestAndDie<C>(runId: string, red: Reducer<C>, s: System<C>, e: Envelope)
    returns (s': System<C>)
    requires SeqsConserved(s.t) && s.t.session.None?
    requires s.consumer == Some(Consumer(0, Some(Subscription(1, [StreamStatus("opened"), StreamEnvelope(e)])), false))
    ensures Runs(runId, red, s, [Consume([]), Consume([]), Crash], s')
    ensures SeqsConserved(s'.t) && s'.t.session.None? && s'.runtime == s.runtime && s'.consumer == None
    ensures StoredEnvelopes(s'.t) == StoredEnvelopes(s.t) + [e]
  {
    var a := [Consume([]), Consume([]), Crash];
    assert [StreamStatus("opened")] + [StreamEnvelope(e)] == [StreamStatus("opened"), StreamEnvelope(e)];
    assert [StreamEnvelope(e)] + [] == [StreamEnvelope(e)];
    var s1 := ConsumeUnbound(runId, red, s, StreamStatus("opened"), [StreamEnvelope(e)]);
    var s2 := ConsumeUnbound(runId, red, s1, StreamEnvelope(e), []);
    s' := s2.(consumer := None);
    RunsThree(runId, red, s, s1, s2, s', a);
  }

  /** One committed frame of an unbound run: stored, but with no ordinal to show for it. */
  lemma {:induction false} ConsumeUnbound<C>(runId: string, red: Reducer<C>, s: System<C>, raw: RawEvent,
      rest: seq<RawEvent>) returns (s': System<C>)
    requires SeqsConserved(s.t) && s.t.session.None?
    requires s.consumer == Some(Consumer(0, Some(Subscription(1, [raw] + rest)), false))
    ensures Enabled(s, Consume([])) && s' == Step(runId, red, s, Consume([]))
    ensures SeqsConserved(s'.t) && s'.t.session.None? && s'.runtime == s.runtime
    ensures s'.consumer == Some(Consumer(NextOrdinal(0, raw), Some(Subscription(1, rest)), false))
    ensures StoredEnvelopes(s'.t) == StoredEnvelopes(s.t) + if raw.StreamEnvelope? then [raw.envelope] else []
  {
    PersistStores(runId, red, s.t, Persist(raw, SessionStream, [], Some(NextOrdinal(0, raw))));
    assert ([raw] + rest)[1..] == rest;
    s' := Step(runId, red, s, Consume([]));
  }

  lemma {:induction false} IngestFirst<C>(runId: string, red: Reducer<C>, s: System<C>)
    returns (s': System<C>, actions: seq<Action>)
    requires SeqsConserved(s.t) && s.t.session.None? && |s.runtime.history| == 1 && s.runtime.base == 0
      && s.consumer == None
    ensures Runs(runId, red, s, actions, s') && SeqsConserved(s'.t) && s'.t.session.None?
    ensures s'.runtime == s.runtime && s'.consumer == None
    ensures StoredEnvelopes(s'.t) == StoredEnvelopes(s.t) + s.runtime.history
  {
    var m := Reattach(runId, red, s);
    s' := IngestAndDie(runId, red, m, s.runtime.history[0]);
    RunsJoin(runId, red, s, [Recover([]), Resubscribe, Send], m, [Consume([]), Consume([]), Crash], s');
    actions := [Recover([]), Resubscribe, Send] + [Consume([]), Consume([]), Crash];
    assert s.runtime.history == [s.runtime.history[0]];
  }

  lemma {:induction false} RunsThree<C>(runId: string, red: Reducer<C>, s: System<C>, s1: System<C>, s2: System<C>,
      s3: System<C>, a: seq<Action>)
    requires |a| == 3
    requires Enabled(s, a[0]) && s1 == Step(runId, red, s, a[0])
    requires Enabled(s1, a[1]) && s2 == Step(runId, red, s1, a[1])
    requires Enabled(s2, a[2]) && s3 == Step(runId, red, s2, a[2])
    ensures Runs(runId, red, s, a, s3)
  {
    assert a[1..][1..] == a[2..] && a[2..][1..] == [];
    assert Runs(runId, red, s3, [], s3);
    assert Runs(runId, red, s2, a[2..], s3);
    assert Runs(runId, red, s1, a[1..], s3);
  }

  lemma {:induction false} RunsJoin<C>(runId: string, red: Reducer<C>, s: System<C>, a: seq<Action>, m: System<C>,
      b: seq<Action>, s': System<C>)
    requires Runs(runId, red, s, a, m) && Runs(runId, red, m, b, s')
    ensures Runs(runId, red, s, a + b, s')
    decreases |a|
  {
    if a == [] {
      assert a + b == b;
    } else {
      assert (a + b)[1..] == a[1..] + b;
      RunsJoin(runId, red, Step(runId, red, s, a[0]), a[1..], m, b, s');
    }
  }

  lemma {:induction false} IngestedTwice<C>(runId: string, red: Reducer<C>, e: Envelope)
    returns (s: System<C>, actions: seq<Action>)
    ensures Runs(runId, red, Begin<C>(false), actions, s)
    ensures |s.runtime.history| == 1 && |StoredEnvelopes(s.t)| == 2
  {
    var s0 := Begin<C>(false);
    var s1 := Step(runId, red, s0, Append(e));
    assert [Append(e)][1..] == [];
    assert Runs(runId, red, s1, [], s1);
    assert Runs(runId, red, s0, [Append(e)], s1);
    var m, a := IngestFirst(runId, red, s1);
    RunsJoin(runId, red, s0, [Append(e)], s1, a, m);
    var b;
    s, b := IngestFirst(runId, red, m);
    RunsJoin(runId, red, s0, [Append(e)] + a, m, b, s);
    actions := [Append(e)] + a + b;
  }
}
