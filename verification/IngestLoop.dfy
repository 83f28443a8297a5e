/**
 * The consume loop as runs of the ingest protocol: every subscription the loop reads, up to a
 * disconnect or an aborted transaction, is a run of `Ingest` that stores the same envelopes and
 * leaves the same ordinal.
 */
module IngestLoop {
  import opened Prelude
  import opened Events
  import opened Tables
  import I = Ingest
  import L = ConsumeLoop

  /** What the protocol delivers for a frame of the loop. */
  function RawOf(f: L.Frame): RawEvent {
    match f
    case EnvelopeFrame(envelope, _) => StreamEnvelope(envelope)
    case OpenedFrame(_) => StreamStatus("opened")
    case _ => StreamStatus("other")
  }

  function Sends(f: L.Frame): I.Action { if f.EnvelopeFrame? then I.Send else I.SendOther(RawOf(f)) }

  /** Attached with nothing waiting: the next envelope the runtime sends is the one after the ordinal. */
  ghost predicate Ready<C>(s: I.System<C>) {
    I.Invariant(s) && I.Streaming(s.consumer) && s.consumer.value.stream.value.queue == []
  }

  /** The runtime's next envelope is this frame's, if it is an envelope. */
  ghost predicate Comes<C>(s: I.System<C>, f: L.Frame)
    requires s.consumer.Some?
  {
    && !f.CompactedFrame?
    && (f.EnvelopeFrame?
      ==> var n := s.consumer.value.ordinal; n < |s.runtime.history| && s.runtime.history[n] == f.envelope)
  }

  lemma {:induction false} Delivered<C>(runId: string, red: Reducer<C>, s: I.System<C>, f: L.Frame)
    returns (s': I.System<C>)
    requires Ready(s) && Comes(s, f)
    ensures I.Enabled(s, Sends(f)) && s' == I.Step(runId, red, s, Sends(f)) && I.Invariant(s')
    ensures I.Streaming(s'.consumer) && s'.consumer.value.stream.value.queue == [RawOf(f)]
    ensures s'.consumer.value.ordinal == s.consumer.value.ordinal && s'.t == s.t && s'.runtime == s.runtime
    ensures s'.consumer.value.historyGap == s.consumer.value.historyGap
  {
    var sub, n := s.consumer.value.stream.value, s.consumer.value.ordinal;
    assert |s.runtime.history[n..sub.next]| == |I.EnvelopesOf([])| == 0;
    I.StepKeeps(runId, red, s, Sends(f));
    s' := I.Step(runId, red, s, Sends(f));
    assert [] + [RawOf(f)] == [RawOf(f)];
  }

  lemma {:induction false} RunsTwo<C>(runId: string, red: Reducer<C>, s: I.System<C>, a: I.Action, m: I.System<C>,
      b: I.Action, s': I.System<C>)
    requires I.Enabled(s, a) && m == I.Step(runId, red, s, a) && I.Enabled(m, b) && s' == I.Step(runId, red, m, b)
    ensures I.Runs(runId, red, s, [a, b], s')
  {
    assert [a, b][1..] == [b] && [b][1..] == [];
    assert I.Runs(runId, red, s', [], s');
    assert I.Runs(runId, red, m, [b], s');
  }

  /** A frame whose transaction commits: delivered, then consumed. */
  lemma {:induction false} CommittedFrame<C>(runId: string, red: Reducer<C>, s: I.System<C>, f: L.Frame,
      drafts: seq<Event>) returns (s': I.System<C>)
    requires Ready(s) && Comes(s, f)
    ensures I.Runs(runId, red, s, [Sends(f), I.Consume(drafts)], s') && Ready(s') && s'.runtime == s.runtime
    ensures s'.consumer.value.ordinal == s.consumer.value.ordinal + if f.EnvelopeFrame? then 1 else 0
    ensures StoredEnvelopes(s'.t) == StoredEnvelopes(s.t) + L.EnvelopesIn([f])
    ensures s'.consumer.value.historyGap == s.consumer.value.historyGap
  {
    var m := Delivered(runId, red, s, f);
    I.StepKeeps(runId, red, m, I.Consume(drafts));
    s' := I.Step(runId, red, m, I.Consume(drafts));
    RunsTwo(runId, red, s, Sends(f), m, I.Consume(drafts), s');
    I.PersistStores(runId, red, m.t, Persist(RawOf(f), SessionStream, drafts, Some(I.NextOrdinal(m.consumer.value.ordinal, RawOf(f)))));
    assert [f][..0] == [] && L.EnvelopesIn([]) == [];
  }

  /** A frame whose transaction aborts: delivered, and the stream given up with nothing stored. */
  lemma {:induction false} AbortedFrame<C>(runId: string, red: Reducer<C>, s: I.System<C>, f: L.Frame)
    returns (s': I.System<C>)
    requires Ready(s) && Comes(s, f)
    ensures I.Runs(runId, red, s, [Sends(f), I.ConsumeAborts], s') && I.Invariant(s') && I.Idle(s'.consumer)
    ensures s'.consumer.value.ordinal == s.consumer.value.ordinal && s'.t == s.t && s'.runtime == s.runtime
  {
    var m := Delivered(runId, red, s, f);
    I.StepKeeps(runId, red, m, I.ConsumeAborts);
    s' := I.Step(runId, red, m, I.ConsumeAborts);
    RunsTwo(runId, red, s, Sends(f), m, I.ConsumeAborts, s');
  }

  lemma {:induction false} EnvelopesAppend(fs: seq<L.Frame>, f: L.Frame)
    ensures L.EnvelopesIn(fs + [f]) == L.EnvelopesIn(fs) + L.EnvelopesIn([f])
  {
    assert (fs + [f])[..|fs|] == fs && [f][..0] == [] && L.EnvelopesIn([]) == [];
  }

  /** Any number of committed frames in a row. */
  lemma {:induction false} CommittedFrames<C>(runId: string, red: Reducer<C>, s: I.System<C>, fs: seq<L.Frame>)
    returns (actions: seq<I.Action>, s': I.System<C>)
    requires Ready(s) && (forall f :: f in fs ==> !f.CompactedFrame?)
    requires s.consumer.value.ordinal <= |s.runtime.history|
      && L.EnvelopesIn(fs) <= s.runtime.history[s.consumer.value.ordinal..]
    ensures I.Runs(runId, red, s, actions, s') && Ready(s') && s'.runtime == s.runtime
    ensures s'.consumer.value.ordinal == s.consumer.value.ordinal + |L.EnvelopesIn(fs)|
    ensures StoredEnvelopes(s'.t) == StoredEnvelopes(s.t) + L.EnvelopesIn(fs)
    ensures s'.consumer.value.historyGap == s.consumer.value.historyGap
    decreases |fs|
  {
    if fs == [] {
      return [], s;
    }
    var k, f, n := |fs| - 1, fs[|fs| - 1], s.consumer.value.ordinal;
    L.NextEnvelope(s.runtime.history, n, fs, k);
    assert fs[..k + 1] == fs == fs[..k] + [f];
    L.EnvelopesPrefix(fs, k);
    var before, m := CommittedFrames(runId, red, s, fs[..k]);
    s' := CommittedFrame(runId, red, m, f, []);
    I.RunsJoin(runId, red, s, before, m, [Sends(f), I.Consume([])], s');
    EnvelopesAppend(fs[..k], f);
    actions := before + [Sends(f), I.Consume([])];
  }

  /** Attaching at the ordinal: resubscribe, and take the status frame every subscription opens with. */
  lemma {:induction false} Attach<C>(runId: string, red: Reducer<C>, s: I.System<C>) returns (s': I.System<C>)
    requires I.Invariant(s) && I.Idle(s.consumer) && !s.consumer.value.historyGap
      && s.runtime.base <= s.consumer.value.ordinal
    ensures I.Runs(runId, red, s, [I.Resubscribe, I.Consume([])], s') && Ready(s') && s'.runtime == s.runtime
    ensures s'.consumer.value.ordinal == s.consumer.value.ordinal && StoredEnvelopes(s'.t) == StoredEnvelopes(s.t)
    ensures !s'.consumer.value.historyGap
  {
    var m := I.Step(runId, red, s, I.Resubscribe);
    I.StepKeeps(runId, red, s, I.Resubscribe);
    I.StepKeeps(runId, red, m, I.Consume([]));
    s' := I.Step(runId, red, m, I.Consume([]));
    RunsTwo(runId, red, s, I.Resubscribe, m, I.Consume([]), s');
    I.PersistStores(runId, red, m.t, Persist(StreamStatus("opened"), SessionStream, [], Some(m.consumer.value.ordinal)));
  }

  /**
   * One subscription of the loop, read up to where it ends: the frames before that point commit, and
   * it ends by itself or with a frame whose transaction aborts.  It is a run of the protocol from
   * idle to idle, storing exactly the committed envelopes and moving the ordinal over them.
   */
  lemma {:induction false} SubscriptionIsRun<C>(runId: string, red: Reducer<C>, s: I.System<C>, fs: seq<L.Frame>,
      aborted: Option<L.Frame>)
    returns (actions: seq<I.Action>, s': I.System<C>)
    requires I.Invariant(s) && I.Idle(s.consumer) && !s.consumer.value.historyGap
      && s.runtime.base <= s.consumer.value.ordinal
    requires forall f :: f in fs ==> !f.CompactedFrame?
    requires aborted.Some? ==> !aborted.value.CompactedFrame?
    requires var all := fs + (if aborted.Some? then [aborted.value] else []);
      s.consumer.value.ordinal <= |s.runtime.history| && L.EnvelopesIn(all) <= s.runtime.history[s.consumer.value.ordinal..]
    ensures I.Runs(runId, red, s, actions, s') && I.Invariant(s') && I.Idle(s'.consumer) && s'.runtime == s.runtime
    ensures s'.consumer.value.ordinal == s.consumer.value.ordinal + |L.EnvelopesIn(fs)|
    ensures StoredEnvelopes(s'.t) == StoredEnvelopes(s.t) + L.EnvelopesIn(fs)
  {
    var n := s.consumer.value.ordinal;
    var all := fs + (if aborted.Some? then [aborted.value] else []);
    assert all[..|fs|] == fs;
    L.EnvelopesPrefix(all, |fs|);
    var open := Attach(runId, red, s);
    var read, m := CommittedFrames(runId, red, open, fs);
    actions := [I.Resubscribe, I.Consume([])] + read;
    I.RunsJoin(runId, red, s, [I.Resubscribe, I.Consume([])], open, read, m);
    if aborted.Some? {
      L.NextEnvelope(s.runtime.history, n, all, |fs|);
      s' := AbortedFrame(runId, red, m, aborted.value);
      I.RunsJoin(runId, red, s, actions, m, [Sends(aborted.value), I.ConsumeAborts], s');
      actions := actions + [Sends(aborted.value), I.ConsumeAborts];
    } else {
      s' := I.Step(runId, red, m, I.Disconnect);
      I.StepKeeps(runId, red, m, I.Disconnect);
      assert [I.Disconnect][1..] == [] && I.Runs(runId, red, s', [], s');
      assert I.Runs(runId, red, m, [I.Disconnect], s');
      I.RunsJoin(runId, red, s, actions, m, [I.Disconnect], s');
      actions := actions + [I.Disconnect];
    }
  }

  /**
   * So what `ConsumeLoop.ReadSubscription` reports of a subscription, the protocol does: from idle at
   * the loop's ordinal there is a run that ends idle at the ordinal the loop reached, with exactly
   * the history up to it stored.
   */
  lemma {:induction false} ReadIsRun<C>(runId: string, red: Reducer<C>, s: I.System<C>, start: nat, fs: seq<L.Frame>,
      read: nat,
                                        ordinal: nat, stored: seq<Envelope>)
    returns (actions: seq<I.Action>, s': I.System<C>)
    requires I.Invariant(s) && I.Idle(s.consumer) && !s.consumer.value.historyGap
      && s.runtime.base <= s.consumer.value.ordinal
    requires s.consumer.value.ordinal <= |s.runtime.history|
      && L.EnvelopesIn(fs) <= s.runtime.history[s.consumer.value.ordinal..]
    requires L.ReadSoFar(s.runtime.history, start, s.consumer.value.ordinal, fs, read, ordinal, stored)
    ensures I.Runs(runId, red, s, actions, s') && I.Idle(s'.consumer) && s'.runtime == s.runtime
    ensures s'.consumer.value.ordinal == ordinal && StoredEnvelopes(s'.t) == s.runtime.history[..ordinal]
  {
    var done := fs[..read];
    L.EnvelopesPrefix(fs, read);
    assert done + [] == done && forall f :: f in done ==> !f.CompactedFrame?;
    actions, s' := SubscriptionIsRun(runId, red, s, done, None);
  }
}
